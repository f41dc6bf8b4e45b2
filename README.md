# Budget backend: write handlers over the SQL Server store

This project models the REST controllers of a budget backend (expense
types, monthly budgets, deposits, funds, fund types, expense headers and
expense details) and the SQL Server database they drive.

- **Store** (`store.dfy`) is the database. It holds one map from identity
  key to row per table and one identity counter per table. It also holds
  the constraints the handlers rely on the server to enforce:
  - six foreign keys, where a violation is SQL error 547;
  - three unique keys (TipoGasto.Nombre, TipoFondo.Nombre, Fondo.NroCuenta),
    where a violation is error 2627.
- **`Store.Database`** is a class whose methods are single SQL statements.
  Each one either raises an error number and changes no row, or succeeds
  and reports the rows it affected. `Valid()` says that every constraint
  holds and every key was issued by its counter. Every statement keeps
  `Valid()`.
- **Transactions** are modelled the way SQL Server runs them. A handler
  snapshots the tables at BEGIN TRANSACTION and restores them on ROLLBACK.
  Identity values drawn inside a rolled-back transaction stay consumed.
- **Each controller** is one module, with one method per handler. A handler
  takes the database and the request and answers a `Reply`: Ok, Created,
  NoContent, BadRequest, NotFound, Conflict or ServerError. Each handler's
  `ensures` states the answer and the whole new state for every branch of
  the source that the model represents, error paths included. The
  branches it does not represent are listed under "## Left out".
- **Codes** (`codes.dfy`) models `GenerarNuevoCodigo`, the generator of
  expense-type codes "TGnnn". It covers:
  - the string order SQL uses for `MAX(Codigo)`;
  - `Substring(2)`, which counts UTF-16 code units, throws on a code of one
    unit and may cut a surrogate pair in half;
  - `int.TryParse`, with its whitespace, sign and trailing-NUL rules;
  - 32-bit wrap-around of `ultimoNumero + 1`;
  - the `000` format.
- **Months** (`months.dfy`) models `Presupuesto.NombreMes`.

Money (`decimal`) is a whole number of cents. Dates are day numbers
counted from 0001-01-01, the day of `DateTime.MinValue`. A date before
1753-01-01 cannot be sent as a SQL `datetime`. The handlers that send one
answer ServerError for it and change nothing (`Common.SqlDateTimeOk`).
Strings compare ordinally.

Behaviour of the code worth knowing, which the model keeps as written:

- Expense-type codes do not always increase. The next code is derived
  from the string maximum of the codes. Once "TG1000" exists, "TG999" is
  still the maximum, so every later POST derives "TG1000" again
  (`Codes.StringMaximumReissuesTG1000`). No unique key covers Codigo, so
  the repeated code is stored.
- POST and PUT of a fund answer ServerError, not BadRequest, when the fund
  type does not exist (error 547). Only a duplicate account number becomes
  Conflict.
- DELETE of an expense header that still has details answers BadRequest,
  not Conflict.
- The fund-type delete guard counts every fund of the type, inactive ones
  included.
- PUT and DELETE of a deposit change the deposit row only. Fund balances
  are not adjusted.

## Model

| member | source | states |
|---|---|---|
| Months.NombreMes | BackendREST/Models/Presupuesto.cs:14-35 | months 1..12 map to their Spanish names in order; every other byte gives "Mes inválido" |
| Months.MonthNamesDistinct | BackendREST/Models/Presupuesto.cs:18-33 | the twelve valid months have twelve distinct names, none of them the invalid-month text |
| Months.NombreMesInjective | BackendREST/Models/Presupuesto.cs:18-33 | the name is the invalid-month text exactly when the month is outside 1..12, and equal valid names mean equal months |
| Common.IsWhiteSpace | BackendREST/Controllers/TipoGastoController.cs:169 | `char.IsWhiteSpace`, which `[Required]` uses: every white-space character lies in the Basic Multilingual Plane and is no digit, and the ASCII blanks are white space |
| Common.Required | BackendREST/Controllers/TipoGastoController.cs:169 | `[Required]` accepts a string exactly when it is not null and has a character that is not white space; an accepted string is non-empty |
| Common.Utf16Length | BackendREST/Controllers/TipoGastoController.cs:170 | `string.Length` in UTF-16 code units: between the number of characters and twice that |
| Common.Utf16LengthBmp | BackendREST/Controllers/TipoGastoController.cs:170 | the code-unit length equals the character count exactly when no character is above U+FFFF |
| Common.Utf16LengthSupplementary | BackendREST/Controllers/TipoGastoController.cs:170 | a string of characters above U+FFFF has two code units per character |
| Common.MaxLength | BackendREST/Controllers/TipoGastoController.cs:170-173 | `[StringLength(max)]`: null passes; an accepted string has at most `max` characters, and over the Basic Multilingual Plane a string passes exactly when it has at most `max` characters |
| Common.SqlDateTimeOk | BackendREST/Controllers/DepositoController.cs:168 | a `DateTime` parameter is accepted as SQL `datetime` only from 1753-01-01 on; the missing date (day 0) is always refused |
| Common.Wrap32 | BackendREST/Controllers/TipoGastoController.cs:196 | `ultimoNumero + 1` in unchecked C# arithmetic: the result is an int32 congruent to the sum modulo 2^32 and equal to it when it fits |
| Codes.LexLeTotal | BackendREST/Controllers/TipoGastoController.cs:180 | the string order `MAX(Codigo)` uses is total |
| Codes.LexLeTransitive | BackendREST/Controllers/TipoGastoController.cs:180 | that order is transitive |
| Codes.LexLeAntisymmetric | BackendREST/Controllers/TipoGastoController.cs:180 | that order is antisymmetric, so a maximum is a single code |
| Codes.MaxCodeUnique | BackendREST/Controllers/TipoGastoController.cs:180-185 | two maxima of the same set of codes are equal |
| Codes.MaxCodeExists | BackendREST/Controllers/TipoGastoController.cs:180-185 | every finite set of codes has a maximum (NULL for the empty table) |
| Codes.MaxCode | BackendREST/Controllers/TipoGastoController.cs:180-185 | the value `SELECT MAX(Codigo)` returns is a maximum of the codes in the table |
| Codes.Digits | BackendREST/Controllers/TipoGastoController.cs:196 | the decimal digits of a natural number: at least one digit, and a single digit exactly below 10 |
| Codes.ValueOfDigits | BackendREST/Controllers/TipoGastoController.cs:196 | reading the printed digits back gives the number |
| Codes.ValuePad3 | BackendREST/Controllers/TipoGastoController.cs:196 | zero padding to three digits keeps the value |
| Codes.Format000 | BackendREST/Controllers/TipoGastoController.cs:196 | the `000` format: at least three characters, the number's digits, and a leading '-' for a negative number |
| Codes.ParseInt32 | BackendREST/Controllers/TipoGastoController.cs:194 | `int.TryParse` succeeds only with a value in the int32 range |
| Codes.ParseFormat000 | BackendREST/Controllers/TipoGastoController.cs:193-196 | parsing the `000` form of any int32 gives that int32 back |
| Codes.NextCode | BackendREST/Controllers/TipoGastoController.cs:186-200 | the generator fails (Substring throws) exactly on a maximum of one UTF-16 code unit; otherwise the code starts with "TG" and has at least five characters |
| Codes.FirstCodeWhenEmpty | BackendREST/Controllers/TipoGastoController.cs:186-190 | an empty table or an empty maximum yields "TG001" |
| Codes.NextCodeOfFormatted | BackendREST/Controllers/TipoGastoController.cs:193-196 | after a prefix of two UTF-16 code units (two characters below U+FFFF or one above) and the `000` form of n comes "TG" and the `000` form of n+1, wrapped to 32 bits |
| Codes.NextCodeIncrements | BackendREST/Controllers/TipoGastoController.cs:193-196 | below int.MaxValue the next code carries n+1, whatever the prefix of two UTF-16 code units was |
| Codes.NextCodeWraps | BackendREST/Controllers/TipoGastoController.cs:196 | after a two-unit prefix and the code for int.MaxValue comes the code for int.MinValue |
| Codes.WrapPastMax | BackendREST/Controllers/TipoGastoController.cs:196 | int.MaxValue + 1 wraps to int.MinValue |
| Codes.UnparsableSuffixRestarts | BackendREST/Controllers/TipoGastoController.cs:193-200 | a maximum whose suffix after the first two UTF-16 code units does not parse restarts the sequence at "TG001" |
| Codes.Substring2 | BackendREST/Controllers/TipoGastoController.cs:193 | `Substring(2)` in UTF-16 units: it throws exactly below two units, splits a surrogate pair exactly when the second character is above U+FFFF after one below it, and otherwise returns the rest after a cut-off part of exactly two units |
| Codes.CutAfterTwoUnits | BackendREST/Controllers/TipoGastoController.cs:193 | a prefix of two UTF-16 units is cut off whole, whatever follows |
| Codes.SplitPairRestarts | BackendREST/Controllers/TipoGastoController.cs:193-200 | a cut through a surrogate pair leaves a suffix that never parses, so numbering restarts at "TG001" |
| Codes.SupplementaryAloneRestarts | BackendREST/Controllers/TipoGastoController.cs:193-200 | a maximum of one character above U+FFFF has two units, so numbering restarts at "TG001" instead of throwing |
| Codes.SplitPairExample | BackendREST/Controllers/TipoGastoController.cs:193-200 | after "a" + U+1F600 + "12" comes "TG001" |
| Codes.SupplementaryPrefixIncrements | BackendREST/Controllers/TipoGastoController.cs:193-196 | after U+1F600 + "009" comes "TG010" |
| Codes.Format000Examples | BackendREST/Controllers/TipoGastoController.cs:196 | 9, 10, 999 and 1000 format as "009", "010", "999" and "1000" |
| Codes.NextCodeAfterTG009 | BackendREST/Controllers/TipoGastoController.cs:193-196 | the code after "TG009" is "TG010" |
| Codes.NextCodeAfterTG999 | BackendREST/Controllers/TipoGastoController.cs:193-196 | the code after "TG999" is "TG1000" |
| Codes.StringMaximumReissuesTG1000 | BackendREST/Controllers/TipoGastoController.cs:180-196 | with "TG999" and "TG1000" both stored, "TG999" is still the maximum, so the next code is again "TG1000", which sorts below "TG999" |
| Store.CountWhere | BackendREST/Controllers/TipoFondoController.cs:188-197 | `SELECT COUNT(*) ... WHERE`: the count is the number of rows satisfying the condition |
| Store.CountPositive | BackendREST/Controllers/TipoFondoController.cs:197-199 | a count is positive exactly when some row satisfies the condition |
| Store.Database.Rollback | BackendREST/Controllers/TipoGastoController.cs:146 | ROLLBACK restores every row of the snapshot and leaves the identity counters where they are |
| Store.Database.InsertTipoGasto | BackendREST/Controllers/TipoGastoController.cs:117-129 | the insert draws the next identity, fails on overflow or a duplicate name and otherwise adds exactly the row under a fresh key; constraints kept |
| Store.Database.UpdateTipoGasto | BackendREST/Controllers/TipoGastoController.cs:218-232 | 0 rows for a missing id; 2627 for a name another type has; otherwise exactly that row is replaced |
| Store.Database.DeleteTipoGasto | BackendREST/Controllers/TipoGastoController.cs:291-295 | 0 rows for a missing id; 547 while details or budgets refer to the type; otherwise exactly that row is removed |
| Store.Database.MaxCodigo | BackendREST/Controllers/TipoGastoController.cs:180-185 | the loop returns the maximum of the stored codes in string order |
| Store.Database.InsertPresupuesto | BackendREST/Controllers/PresupuestoController.cs:134-147 | fresh key, 547 for a missing expense type, otherwise exactly the row added |
| Store.Database.UpdatePresupuesto | BackendREST/Controllers/PresupuestoController.cs:214-231 | 0 rows for a missing id, 547 for a missing expense type, otherwise exactly that row replaced |
| Store.Database.DeletePresupuesto | BackendREST/Controllers/PresupuestoController.cs:291-295 | 0 rows for a missing id, otherwise exactly that row removed |
| Store.Database.InsertDeposito | BackendREST/Controllers/DepositoController.cs:159-172 | fresh key, 547 for a missing fund, otherwise exactly the row added |
| Store.Database.AddToSaldo | BackendREST/Controllers/DepositoController.cs:176-187 | `saldo = saldo + @Monto` on that fund only; 0 rows when the fund is missing |
| Store.Database.UpdateDeposito | BackendREST/Controllers/DepositoController.cs:257-272 | 0 rows for a missing id, 547 for a missing fund, otherwise exactly that row replaced |
| Store.Database.DeleteDeposito | BackendREST/Controllers/DepositoController.cs:335-339 | 0 rows for a missing id, otherwise exactly that row removed |
| Store.Database.InsertFondo | BackendREST/Controllers/FondoController.cs:171-187 | fresh key; 2627 for a taken account number before 547 for a missing fund type; otherwise exactly the row added |
| Store.Database.UpdateFondo | BackendREST/Controllers/FondoController.cs:223-245 | 0 rows for a missing id; 2627 when another fund has the account number; 547 for a missing type; otherwise every column replaced |
| Store.Database.Deactivate | BackendREST/Controllers/FondoController.cs:277-287 | `SET Activo = 0`: 0 rows for a missing id, otherwise only that fund's flag cleared |
| Store.Database.InsertTipoFondo | BackendREST/Controllers/TipoFondoController.cs:99-109 | fresh key, 2627 for a taken name, otherwise exactly the row added |
| Store.Database.UpdateTipoFondo | BackendREST/Controllers/TipoFondoController.cs:145-156 | 0 rows for a missing id, 2627 when another type has the name, otherwise the row renamed |
| Store.Database.DeleteTipoFondo | BackendREST/Controllers/TipoFondoController.cs:189-209 | 0 rows for a missing id, 547 while a fund refers to it, otherwise exactly that row removed |
| Store.Database.InsertEncabezado | BackendREST/Controllers/GastoencabezadoController.cs:130-147 | fresh key, 547 for a missing fund, otherwise exactly the row added |
| Store.Database.UpdateEncabezado | BackendREST/Controllers/GastoencabezadoController.cs:182-204 | 0 rows for a missing id, 547 for a missing fund, otherwise the six columns replaced |
| Store.Database.DeleteEncabezado | BackendREST/Controllers/GastoencabezadoController.cs:234-240 | 0 rows for a missing id, 547 while detail rows refer to it, otherwise exactly that row removed |
| Store.Database.InsertDetalle | BackendREST/Controllers/GastoDetalleController.cs:205-219 | fresh key, 547 for a missing header or expense type, otherwise exactly the row added |
| Store.Database.UpdateDetalle | BackendREST/Controllers/GastoDetalleController.cs:321-337 | 0 rows for a missing id, 547 for a missing header or type, otherwise that row replaced |
| Store.Database.DeleteDetalle | BackendREST/Controllers/GastoDetalleController.cs:367-373 | 0 rows for a missing id, otherwise exactly that row removed |
| TipoGastoController.InputValid | BackendREST/Controllers/TipoGastoController.cs:167-175 | a valid body has a non-null name of 1 to 100 characters and a description that is null or at most 255 characters |
| TipoGastoController.SupplementaryNameTooLong | BackendREST/Controllers/TipoGastoController.cs:169-170 | a name of more than 50 characters above U+FFFF is refused, since its `string.Length` exceeds 100 |
| TipoGastoController.BmpInputValid | BackendREST/Controllers/TipoGastoController.cs:167-175 | over the Basic Multilingual Plane a non-blank name of at most 100 characters and a null or at most 255-character description pass |
| TipoGastoController.StoredDescripcion | BackendREST/Controllers/TipoGastoController.cs:229-230 | PUT stores NULL exactly when the description is null or empty, and the description itself otherwise |
| TipoGastoController.GenerarNuevoCodigo | BackendREST/Controllers/TipoGastoController.cs:177-201 | the code follows from the table's maximum code; it fails exactly when that maximum is one UTF-16 code unit long |
| TipoGastoController.Post | BackendREST/Controllers/TipoGastoController.cs:98-164 | BadRequest on invalid input, lengths counted in UTF-16 code units; ServerError with nothing stored when the generator throws or Descripcion is null; Conflict for a taken name; otherwise Created with a fresh id and the generated code |
| TipoGastoController.Put | BackendREST/Controllers/TipoGastoController.cs:207-254 | BadRequest on invalid input (lengths in UTF-16 code units), NotFound or Conflict with no change; otherwise NoContent with name and description replaced and the code kept |
| TipoGastoController.Delete | BackendREST/Controllers/TipoGastoController.cs:271-317 | NotFound for a missing id; Conflict with no change while details or budgets refer to it; otherwise NoContent with exactly that row removed |
| TipoGastoController.PostCodeFollowsMaximum | BackendREST/Controllers/TipoGastoController.cs:180-196 | whatever maximum the query returns, the new code is the one derived from it |
| PresupuestoController.InputValid | BackendREST/Controllers/PresupuestoController.cs:330-346 | a body is valid exactly when its month has a name (`NombreMes` is not the invalid text), its year is in 2000..2100 and its amount is positive |
| PresupuestoController.PresupuestoExists | BackendREST/Controllers/PresupuestoController.cs:367-389 | true exactly when another budget, not `excludeId`, has the same expense type, month and year |
| PresupuestoController.PresupuestoExistsById | BackendREST/Controllers/PresupuestoController.cs:391-399 | true exactly when the budget exists |
| PresupuestoController.GetPresupuestoById | BackendREST/Controllers/PresupuestoController.cs:401-432 | the stored budget with its id, present exactly when the row and its expense type exist |
| PresupuestoController.Post | BackendREST/Controllers/PresupuestoController.cs:111-178 | BadRequest on invalid input; Conflict with no change for a taken period; ServerError with no row for a missing expense type; otherwise Created with the new row, its type name and month name; period uniqueness kept |
| PresupuestoController.Put | BackendREST/Controllers/PresupuestoController.cs:184-268 | BadRequest, NotFound, Conflict (another budget, same period) or ServerError with no change; otherwise Ok with that row replaced; period uniqueness kept |
| PresupuestoController.Delete | BackendREST/Controllers/PresupuestoController.cs:271-327 | NotFound for a missing id; otherwise NoContent with exactly that row removed |
| PresupuestoController.ExcludingZeroExcludesNothing | BackendREST/Controllers/PresupuestoController.cs:126-131 | POST's duplicate check, run with the default `excludeId` 0, looks at every budget, because no key is 0 |
| PresupuestoController.OwnPeriodNeverConflicts | BackendREST/Controllers/PresupuestoController.cs:205-211 | a PUT that keeps a budget's own period never conflicts with itself |
| PresupuestoController.InsertKeepsPeriodsUnique | BackendREST/Controllers/PresupuestoController.cs:126-147 | an insert that passed the duplicate check keeps periods unique |
| PresupuestoController.UpdateKeepsPeriodsUnique | BackendREST/Controllers/PresupuestoController.cs:205-231 | an update that passed the duplicate check keeps periods unique |
| DepositoController.InputValid | BackendREST/Controllers/DepositoController.cs:374-386 | a valid body names a positive int32 fund id and a positive amount; a non-positive amount is always refused |
| DepositoController.NonPositiveFundNeverStored | BackendREST/Controllers/DepositoController.cs:379-380 | in a consistent database no fund has an id below 1, so the lower bound of the range refuses only deposits the foreign key would refuse |
| DepositoController.DepositoExistsById | BackendREST/Controllers/DepositoController.cs:403-411 | true exactly when the deposit exists |
| DepositoController.GetDepositoById | BackendREST/Controllers/DepositoController.cs:413-435 | the stored deposit with its id, present exactly when it exists |
| DepositoController.Post | BackendREST/Controllers/DepositoController.cs:143-230 | BadRequest on invalid input; ServerError with no change and no identity drawn for a date before 1753; BadRequest for a missing fund; otherwise Created, with the deposit stored and the fund's balance raised by the amount in the same transaction |
| DepositoController.Put | BackendREST/Controllers/DepositoController.cs:234-313 | BadRequest or NotFound with no change; then ServerError with no change for a date before 1753; BadRequest for a missing fund; otherwise Ok with that deposit replaced; balances never change |
| DepositoController.Delete | BackendREST/Controllers/DepositoController.cs:316-371 | NotFound for a missing id; otherwise NoContent with that deposit removed; balances never change |
| DepositoController.WithSaldoChangesOneFund | BackendREST/Controllers/DepositoController.cs:176-187 | the balance update changes only the target fund's Saldo, by exactly the amount |
| DepositoController.DepositsAdd | BackendREST/Controllers/DepositoController.cs:176-187 | two deposits into one fund raise its balance by their sum |
| TipoFondoController.Post | BackendREST/Controllers/TipoFondoController.cs:90-129 | Conflict with no change for a taken name; ServerError when identities are exhausted; otherwise Created with a fresh id and the name echoed |
| TipoFondoController.Put | BackendREST/Controllers/TipoFondoController.cs:133-177 | BadRequest when path and body ids differ; NotFound for a missing id; Conflict for a taken name; otherwise NoContent with that type renamed |
| TipoFondoController.Delete | BackendREST/Controllers/TipoFondoController.cs:181-225 | Conflict with no change while any fund, active or not, has the type; otherwise NotFound for a missing id, or NoContent with exactly that type removed |
| TipoFondoController.ReferencedTypeExists | BackendREST/Controllers/TipoFondoController.cs:188-202 | in a consistent database a type some fund refers to exists, so the guard never hides a NotFound |
| TipoFondoController.InactiveFundBlocksDelete | BackendREST/Controllers/TipoFondoController.cs:188-202 | a soft-deleted fund is absent from the active list and still blocks deletion of its type |
| FondoController.GetActivos | BackendREST/Controllers/FondoController.cs:74-111 | the list holds each active fund whose type exists, once, with its stored row |
| FondoController.ListedIsActive | BackendREST/Controllers/FondoController.cs:81-86 | in a consistent database the listed funds are exactly those with Activo set |
| FondoController.Post | BackendREST/Controllers/FondoController.cs:162-207 | Conflict with no change for a taken account number; ServerError for a missing type or exhausted identities; otherwise Created with a fresh id and every column from the body |
| FondoController.Put | BackendREST/Controllers/FondoController.cs:211-266 | BadRequest before any write when ids differ; NotFound; Conflict for another fund's account number; ServerError for a missing type; otherwise NoContent with every column, Saldo and Activo included, replaced |
| FondoController.Delete | BackendREST/Controllers/FondoController.cs:270-303 | NotFound for a missing id; otherwise NoContent with only the Activo flag cleared, also for an already inactive fund |
| FondoController.SoftDeleteKeepsRow | BackendREST/Controllers/FondoController.cs:277-280 | the soft delete keeps every fund and every column but Activo |
| FondoController.SoftDeleteHidesFund | BackendREST/Controllers/FondoController.cs:277-280 | after it the active funds are the previous ones minus that fund |
| FondoController.SoftDeleteIdempotent | BackendREST/Controllers/FondoController.cs:284-293 | deleting a fund twice leaves the same table as deleting it once, and the second delete still finds the row |
| GastoencabezadoController.Post | BackendREST/Controllers/GastoencabezadoController.cs:121-166 | ServerError with no change and no identity drawn for a date before 1753; BadRequest with no change for a missing fund; ServerError when identities are exhausted; otherwise Created with a fresh id and the caller's fields |
| GastoencabezadoController.Put | BackendREST/Controllers/GastoencabezadoController.cs:170-224 | BadRequest when ids differ; ServerError with no change for a date before 1753, even for a missing id; BadRequest when the fund is missing; NotFound; otherwise NoContent with that header's six columns replaced |
| GastoencabezadoController.Delete | BackendREST/Controllers/GastoencabezadoController.cs:228-260 | NotFound for a missing id; BadRequest, not Conflict, with the header kept while details refer to it; otherwise NoContent with exactly that header removed |
| GastoencabezadoController.ReferencedHeaderExists | BackendREST/Controllers/GastoencabezadoController.cs:250-253 | a header that details refer to exists, so its DELETE answers BadRequest and never NotFound |
| GastoencabezadoController.DeleteKeepsDetailsAttached | BackendREST/Controllers/GastoencabezadoController.cs:234-246 | after an unreferenced header is removed, every detail still belongs to a remaining header |
| GastoDetalleController.Post | BackendREST/Controllers/GastoDetalleController.cs:195-238 | BadRequest with no change for a missing header or expense type; otherwise Created with a fresh id and the caller's row |
| GastoDetalleController.RowsOf | BackendREST/Controllers/GastoDetalleController.cs:266-272 | the rows the bulk insert writes are the items' rows, in order |
| GastoDetalleController.FirstFailure | BackendREST/Controllers/GastoDetalleController.cs:266-277 | the index of the first item whose INSERT fails; every earlier item succeeds |
| GastoDetalleController.AppendedContents | BackendREST/Controllers/GastoDetalleController.cs:266-280 | a committed batch holds the old details plus item i under key next+i, and nothing else changed |
| GastoDetalleController.AppendedSize | BackendREST/Controllers/GastoDetalleController.cs:266-280 | a committed batch adds exactly as many details as there were items |
| GastoDetalleController.PartwayStep | BackendREST/Controllers/GastoDetalleController.cs:266-277 | each loop pass adds one row to the tables of the previous pass |
| GastoDetalleController.NumberedAt | BackendREST/Controllers/GastoDetalleController.cs:274-275 | after i passes the first i items carry their new ids and the rest are untouched |
| GastoDetalleController.InsertBulkRow | BackendREST/Controllers/GastoDetalleController.cs:268-276 | one pass either inserts the row and writes its id into the item, or fails with no change |
| GastoDetalleController.InsertRows | BackendREST/Controllers/GastoDetalleController.cs:266-277 | the loop stops at the first failing item, having inserted and numbered all before it |
| GastoDetalleController.InsertBatch | BackendREST/Controllers/GastoDetalleController.cs:256-287 | all items inserted under consecutive keys and Created, or, on the first failure, every row rolled back |
| GastoDetalleController.PostBulk | BackendREST/Controllers/GastoDetalleController.cs:242-302 | BadRequest for a null or empty list; otherwise Created with every row, or BadRequest (547) or ServerError and no row stored |
| GastoDetalleController.Put | BackendREST/Controllers/GastoDetalleController.cs:308-357 | BadRequest when ids differ or a reference is missing; NotFound; otherwise NoContent with that row replaced |
| GastoDetalleController.Delete | BackendREST/Controllers/GastoDetalleController.cs:360-389 | NotFound for a missing id; otherwise NoContent with exactly that row removed |
| GastoDetalleController.ViewOf | BackendREST/Controllers/GastoDetalleController.cs:86-97 | a view row carries its number, its header's date, the name of its header's fund, the name of its expense type and the detail's amount |
| GastoDetalleController.InsertDesc | BackendREST/Controllers/GastoDetalleController.cs:88 | placing a detail in the date order adds exactly that detail |
| GastoDetalleController.InsertDescSorted | BackendREST/Controllers/GastoDetalleController.cs:88 | the placement keeps the dates in descending order |
| GastoDetalleController.InsertDescDistinct | BackendREST/Controllers/GastoDetalleController.cs:88 | the placement repeats no detail |
| GastoDetalleController.GetDatosDetalle | BackendREST/Controllers/GastoDetalleController.cs:80-117 | the rows are exactly the details that survive the joins, each once, numbered 1, 2, … with dates never increasing |
| GastoDetalleController.EveryDetailJoins | BackendREST/Controllers/GastoDetalleController.cs:94-97 | in a consistent database every detail survives the three INNER JOINs |

## Left out

- Authentication and JWT (`[Authorize]`, AuthController) and the
  configuration checks in the controller constructors are not part of this
  model.
- Concurrency is not modelled: locking hints, isolation levels and
  interleaved requests. Each handler runs alone against the store.
- I/O is not modelled: connections, readers and the HTTP status text.
  Network and connection failures are not represented, so the
  "Error de conexión" 500 branches have no input that reaches them.
- The GET endpoints are modelled only where a core property needs them
  (`GetActivos`, `GetDatosDetalle`, and the by-id lookups the writes use).
  The other list and by-id reads are plain SELECTs and are left out.
- Decimal money is modelled as whole cents. `[Range(0.01, double.MaxValue)]`
  becomes "at least one cent". Floating point, rounding and precision are
  not modelled.
- Dates are whole days: the time of day is not modelled. The `CONVERT(..., 120)` and `FORMAT(..., 'N2')`
  text of `GetDatosDetalle` is not produced. The view keeps the raw date
  and amount.
- GastoDetalleController.GetDatosDetalle: the query numbers rows by
  descending date but has no outer ORDER BY. The model returns the rows in
  numbering order, and its numbering breaks ties between equal dates in
  one fixed way.
- FondoController.GetActivos: SQL without ORDER BY fixes no order, so the
  contract states membership and uniqueness but no order.
- ModelState is modelled only where the source declares annotations: the
  TipoGasto, Presupuesto and Deposito input models. Models/Fondo.cs and
  Models/Gastoencabezado.cs carry no annotations. The TipoFondo and
  GastoDetalle classes are not part of this model. It assumes they carry no
  annotations either, so TipoFondoController.Post/Put and
  GastoDetalleController.Post/PostBulk/Put hold under that assumption. A null required string, which would reach
  SQL as a missing parameter, is not represented for those bodies.
- The model assumes the project builds with the C# nullable context
  disabled. The project file is not part of this model. With nullable
  enabled, MVC adds an implicit `[Required]` (empty strings allowed) to
  every non-nullable `string` property of a body. The request would then
  be answered 400 before the handler runs. The next four lines name the
  branches this affects.
- TipoGastoController.Post: a null Descripcion answers ServerError (SQL
  error 8178). With nullable enabled it would answer BadRequest.
- TipoGastoController.Put: a null Descripcion is stored as NULL. With
  nullable enabled it would answer BadRequest.
- FondoController.Post and FondoController.Put: a null Descripcion is
  stored as NULL. `TipoFondoNombre` is not in the body. With nullable
  enabled, a missing Descripcion or TipoFondoNombre would answer
  BadRequest.
- GastoencabezadoController.Post and GastoencabezadoController.Put: a null
  Observaciones is stored as NULL. With nullable enabled it would answer
  BadRequest.
- GastoDetalleController.PostBulk: the list is an array of detail rows,
  none of them null. A `[null]` element passes the null-or-empty check. It
  then throws NullReferenceException inside the loop, which rolls back and
  answers 500. That branch is not modelled.
- Codes.ParseInt32 and Codes.Format000 use '-' and '+' as the signs.
  `int.TryParse` and `ToString("000")` read the signs from the current
  culture. The model assumes the server culture uses '-' and '+'.
- Strings are sequences of Unicode scalar values. A JSON string holding an
  unpaired surrogate cannot be represented. `[StringLength]` counts UTF-16
  code units through `Common.Utf16Length`.
- String comparison is ordinal over Unicode scalar values. A database
  collation's case folding and trailing-blank rules, in unique keys and in
  `MAX(Codigo)`, are not modelled. Neither is the UTF-16 order that puts
  characters above U+FFFF before U+E000..U+FFFF.
- Route ids and body ids are unbounded integers. The C# parameters are
  `int`, so model binding answers 400 for a value outside the 32-bit range
  before any handler runs. The contracts also describe such values, which
  no request can deliver. Only `DepositoController.InputValid` bounds its
  fund id, because its `[Range]` says so.
- The order in which one statement reports several violated constraints
  is fixed: identity overflow first, then unique key, then foreign key.
  SQL Server does not document this order.
- PresupuestoController.Delete and DepositoController.Delete map error 547
  to Conflict. No foreign key of this schema points at Presupuesto or
  Deposito, so in the model that branch has no input that reaches it.
- Models/Usuario.cs, Models/LoginResponse.cs, Services/IAuthService.cs and
  SecureController.cs are not part of this model.

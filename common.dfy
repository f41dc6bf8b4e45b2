/**
 * Definitions shared by every controller of the budget backend: optional
 * values (a C# `null`), the HTTP outcome of a handler, the 32-bit integer
 * range of the C# `int` type, and the data-annotation validators that
 * ASP.NET runs before a handler body executes (`ModelState.IsValid`).
 */
module Common {

  /** A value that may be absent: a C# reference that may be `null`, or a SQL column that may be NULL. */
  datatype Option<+T> = None | Some(value: T)

  /** A row of a table together with its identity key, as the handlers echo it back. */
  datatype Keyed<+T> = Keyed(id: int, row: T)

  /**
   * The HTTP outcome of a handler: 200 with a body, 201 with the created
   * record, 204, 400, 404, 409 or 500. Error messages are not modelled.
   */
  datatype Reply<+T> =
    | Ok(value: T)
    | Created(value: T)
    | NoContent
    | BadRequest
    | NotFound
    | Conflict
    | ServerError

  const Int32Min: int := -0x8000_0000
  const Int32Max: int := 0x7FFF_FFFF

  predicate IsInt32(x: int) {
    Int32Min <= x <= Int32Max
  }

  /** Two's-complement wrap-around of C#'s unchecked `int` arithmetic. */
  function Wrap32(x: int): (r: int)
    ensures IsInt32(r)
    ensures IsInt32(x) ==> r == x
    ensures (r - x) % 0x1_0000_0000 == 0
  {
    (x - Int32Min) % 0x1_0000_0000 + Int32Min
  }

  /**
   * Dates are day numbers counted from 0001-01-01, the day of
   * `DateTime.MinValue`, which is also what a body that leaves its date out
   * carries. The SQL `datetime` type starts at 1753-01-01, day 639905.
   */
  const MinSqlDay: int := 639_905

  /**
   * A `DateTime` sent as a SQL `datetime` parameter: an earlier date throws
   * `SqlTypeException` ("SqlDateTime overflow") before the statement reaches
   * the server. A missing date is always refused.
   */
  predicate SqlDateTimeOk(day: int)
    ensures day == 0 ==> !SqlDateTimeOk(day)
  {
    MinSqlDay <= day
  }

  /**
   * `char.IsWhiteSpace`: the Unicode space separators, line and paragraph
   * separators, and the controls U+0009..U+000D, U+0085. Every one of them
   * is a single UTF-16 code unit, and the ASCII blanks are among them.
   */
  predicate IsWhiteSpace(c: char)
    ensures IsWhiteSpace(c) ==> c <= '\U{3000}' && !('0' <= c <= '9')
    ensures c == ' ' || ('\t' <= c <= '\r') ==> IsWhiteSpace(c)
  {
    || ('\U{9}' <= c <= '\U{D}')
    || c == '\U{20}'
    || c == '\U{85}'
    || c == '\U{A0}'
    || c == '\U{1680}'
    || ('\U{2000}' <= c <= '\U{200A}')
    || c == '\U{2028}'
    || c == '\U{2029}'
    || c == '\U{202F}'
    || c == '\U{205F}'
    || c == '\U{3000}'
  }

  /** `string.IsNullOrWhiteSpace`. */
  predicate IsNullOrWhiteSpace(s: Option<string>) {
    s.None? || forall i :: 0 <= i < |s.value| ==> IsWhiteSpace(s.value[i])
  }

  /** `[Required]` on a string: rejects null, the empty string and all-blank strings. */
  predicate Required(s: Option<string>)
    ensures Required(s) ==> s.Some? && |s.value| > 0
    ensures Required(s) <==> s.Some? && exists i :: 0 <= i < |s.value| && !IsWhiteSpace(s.value[i])
  {
    !IsNullOrWhiteSpace(s)
  }

  /**
   * `string.Length`: the number of UTF-16 code units. A character above
   * U+FFFF is stored as a surrogate pair and counts twice.
   */
  function Utf16Length(s: string): (n: nat)
    ensures |s| <= n <= 2 * |s|
  {
    if s == [] then 0 else (if s[0] > '\U{FFFF}' then 2 else 1) + Utf16Length(s[1..])
  }

  /** The UTF-16 length equals the number of characters exactly when no character lies above U+FFFF. */
  lemma {:induction false} Utf16LengthBmp(s: string)
    ensures Utf16Length(s) == |s| <==> forall i :: 0 <= i < |s| ==> s[i] <= '\U{FFFF}'
  {
    if s != [] {
      Utf16LengthBmp(s[1..]);
      assert forall i :: 1 <= i < |s| ==> s[i] == s[1..][i - 1];
    }
  }

  /** A string made only of characters above U+FFFF has twice as many code units as characters. */
  lemma {:induction false} Utf16LengthSupplementary(s: string)
    requires forall i :: 0 <= i < |s| ==> s[i] > '\U{FFFF}'
    ensures Utf16Length(s) == 2 * |s|
  {
    if s != [] {
      assert forall i :: 0 <= i < |s[1..]| ==> s[1..][i] == s[i + 1];
      Utf16LengthSupplementary(s[1..]);
    }
  }

  /**
   * `[StringLength(max)]`: a null string passes, any other must have at most
   * `max` UTF-16 code units. Over the Basic Multilingual Plane that is at most
   * `max` characters; beyond it a string may be refused with fewer.
   */
  predicate MaxLength(s: Option<string>, max: nat)
    ensures MaxLength(s, max) ==> s.None? || |s.value| <= max
    ensures s.Some? && (forall i :: 0 <= i < |s.value| ==> s.value[i] <= '\U{FFFF}') ==>
              (MaxLength(s, max) <==> |s.value| <= max)
  {
    match s
    case None => true
    case Some(v) => Utf16LengthBmp(v); Utf16Length(v) <= max
  }

  /** `string.IsNullOrEmpty`. */
  predicate IsNullOrEmpty(s: Option<string>) {
    s.None? || s.value == []
  }

  /** Chooses an arbitrary element of a non-empty set (the iteration order of a table scan is not specified). */
  method Pick<K>(s: set<K>) returns (x: K)
    requires s != {}
    ensures x in s
  {
    x :| x in s;
  }
}

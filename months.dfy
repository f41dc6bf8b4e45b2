/**
 * The `NombreMes` property of a budget (`Presupuesto`): the Spanish name of
 * its month. `Mes` is a C# `byte`, so every value 0..255 has a name.
 */
module Months {

  /** A C# `byte`. */
  newtype Byte = x: int | 0 <= x < 256

  const InvalidMonth: string := "Mes inválido"

  /** The twelve month names in calendar order. */
  const MonthNames: seq<string> := [
    "Enero", "Febrero", "Marzo", "Abril", "Mayo", "Junio",
    "Julio", "Agosto", "Septiembre", "Octubre", "Noviembre", "Diciembre"
  ]

  /** The `switch` on `Mes`: 1..12 name a month, any other byte is invalid. */
  function NombreMes(mes: Byte): (r: string)
    ensures 1 <= mes <= 12 ==> r == MonthNames[mes - 1]
    ensures !(1 <= mes <= 12) ==> r == InvalidMonth
  {
    match mes
    case 1 => "Enero"
    case 2 => "Febrero"
    case 3 => "Marzo"
    case 4 => "Abril"
    case 5 => "Mayo"
    case 6 => "Junio"
    case 7 => "Julio"
    case 8 => "Agosto"
    case 9 => "Septiembre"
    case 10 => "Octubre"
    case 11 => "Noviembre"
    case 12 => "Diciembre"
    case _ => "Mes inválido"
  }

  /** The twelve valid months have pairwise distinct names, and none of them is the invalid marker. */
  lemma MonthNamesDistinct(a: Byte, b: Byte)
    requires 1 <= a <= 12 && 1 <= b <= 12
    ensures NombreMes(a) != InvalidMonth
    ensures NombreMes(a) == NombreMes(b) ==> a == b
  {
  }

  /** A month name identifies its month: the name is valid exactly for 1..12, and maps back to its position. */
  lemma NombreMesInjective(a: Byte, b: Byte)
    ensures NombreMes(a) == InvalidMonth <==> !(1 <= a <= 12)
    ensures NombreMes(a) == NombreMes(b) && NombreMes(a) != InvalidMonth ==> a == b
  {
    if 1 <= a <= 12 {
      MonthNamesDistinct(a, a);
      if NombreMes(a) == NombreMes(b) {
        if 1 <= b <= 12 {
          MonthNamesDistinct(a, b);
        }
      }
    }
  }
}

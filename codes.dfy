/**
 * Generation of the next expense-type code (`GenerarNuevoCodigo` of the
 * expense-type controller). The controller reads `MAX(Codigo)`, a maximum
 * in STRING order, drops the first two characters, parses the rest with
 * `int.TryParse`, adds one with unchecked 32-bit arithmetic and formats it
 * with the custom format "000" behind the prefix "TG".
 *
 * This module holds the pure parts: the string order, the parser, the
 * formatter and the code step itself, with their round-trip lemmas.
 */
module Codes {
  import opened Common

  // ---------------------------------------------------------------------
  // String order used by MAX(Codigo): ordinal, character by character.
  // ---------------------------------------------------------------------

  /** `a` sorts at or before `b`: `a` is a prefix of `b`, or the first differing character of `a` is smaller. */
  predicate LexLe(a: string, b: string) {
    if a == [] then true
    else if b == [] then false
    else if a[0] != b[0] then a[0] < b[0]
    else LexLe(a[1..], b[1..])
  }

  predicate LexLt(a: string, b: string) {
    LexLe(a, b) && a != b
  }

  lemma {:induction false} LexLeReflexive(a: string)
    ensures LexLe(a, a)
  {
    if a != [] {
      LexLeReflexive(a[1..]);
    }
  }

  lemma {:induction false} LexLeAntisymmetric(a: string, b: string)
    requires LexLe(a, b) && LexLe(b, a)
    ensures a == b
  {
    if a != [] && b != [] {
      LexLeAntisymmetric(a[1..], b[1..]);
      assert a == [a[0]] + a[1..];
      assert b == [b[0]] + b[1..];
    }
  }

  lemma {:induction false} LexLeTransitive(a: string, b: string, c: string)
    requires LexLe(a, b) && LexLe(b, c)
    ensures LexLe(a, c)
  {
    if a != [] && b != [] && c != [] && a[0] == b[0] && b[0] == c[0] {
      LexLeTransitive(a[1..], b[1..], c[1..]);
    }
  }

  lemma {:induction false} LexLeTotal(a: string, b: string)
    ensures LexLe(a, b) || LexLe(b, a)
  {
    if a != [] && b != [] && a[0] == b[0] {
      LexLeTotal(a[1..], b[1..]);
    }
  }

  /** `m` is the value `MAX(Codigo)` returns over the codes `codes`: NULL for no rows, else the greatest code in string order. */
  ghost predicate IsMaxCode(codes: set<string>, m: Option<string>) {
    match m
    case None => codes == {}
    case Some(c) => c in codes && forall d :: d in codes ==> LexLe(d, c)
  }

  /** The maximum is unique, so the code the controller derives from it is determined by the table. */
  lemma MaxCodeUnique(codes: set<string>, m1: Option<string>, m2: Option<string>)
    requires IsMaxCode(codes, m1) && IsMaxCode(codes, m2)
    ensures m1 == m2
  {
    if m1.Some? && m2.Some? {
      LexLeAntisymmetric(m1.value, m2.value);
    }
  }

  /** Every finite set of codes has a maximum, so `MAX(Codigo)` is always defined. */
  lemma {:induction false} MaxCodeExists(codes: set<string>)
    ensures exists m :: IsMaxCode(codes, m)
    decreases codes
  {
    if codes == {} {
      assert IsMaxCode(codes, None);
    } else {
      var c :| c in codes;
      var rest := codes - {c};
      MaxCodeExists(rest);
      var m :| IsMaxCode(rest, m);
      LexLeReflexive(c);
      if m.None? {
        assert rest == {} && codes == {c};
        assert IsMaxCode(codes, Some(c));
      } else {
        var x := m.value;
        LexLeTotal(c, x);
        if LexLe(c, x) {
          assert IsMaxCode(codes, Some(x));
        } else {
          forall d | d in rest ensures LexLe(d, c) {
            LexLeTransitive(d, x, c);
          }
          assert IsMaxCode(codes, Some(c));
        }
      }
    }
  }

  /** The value of `SELECT MAX(Codigo)` over a set of codes. */
  ghost function MaxCode(codes: set<string>): (m: Option<string>)
    ensures IsMaxCode(codes, m)
  {
    MaxCodeExists(codes);
    var m :| IsMaxCode(codes, m); m
  }

  // ---------------------------------------------------------------------
  // Decimal digits.
  // ---------------------------------------------------------------------

  predicate IsDigit(c: char) {
    '0' <= c <= '9'
  }

  predicate AllDigits(s: string) {
    forall i :: 0 <= i < |s| ==> IsDigit(s[i])
  }

  function DigitChar(d: int): (c: char)
    requires 0 <= d < 10
    ensures IsDigit(c) && c as int - '0' as int == d
  {
    ('0' as int + d) as char
  }

  /** The number written by a run of decimal digits, leading zeros allowed. */
  function Value(s: string): nat
    requires AllDigits(s)
  {
    if s == [] then 0
    else 10 * Value(s[..|s| - 1]) + (s[|s| - 1] as int - '0' as int)
  }

  /** The decimal numeral of `n`, without leading zeros ("0" for zero). */
  function Digits(n: nat): (s: string)
    ensures 1 <= |s| && AllDigits(s)
    ensures n < 10 <==> |s| == 1
  {
    if n < 10 then [DigitChar(n)] else Digits(n / 10) + [DigitChar(n % 10)]
  }

  lemma {:induction false} ValueOfDigits(n: nat)
    ensures Value(Digits(n)) == n
  {
    if n >= 10 {
      ValueOfDigits(n / 10);
      var s := Digits(n);
      assert s[..|s| - 1] == Digits(n / 10);
    }
  }

  /** A leading zero does not change the value of a numeral. */
  lemma {:induction false} ValueLeadingZero(s: string)
    requires AllDigits(s)
    ensures AllDigits(['0'] + s) && Value(['0'] + s) == Value(s)
  {
    if s != [] {
      var t := ['0'] + s;
      assert t[..|t| - 1] == ['0'] + s[..|s| - 1];
      ValueLeadingZero(s[..|s| - 1]);
    }
  }

  /** Left-pads a numeral with zeros to at least three characters, as the custom format "000" does. */
  function Pad3(s: string): (r: string)
    requires AllDigits(s)
    ensures AllDigits(r) && |r| == if |s| >= 3 then |s| else 3
    decreases 3 - |s|
  {
    if |s| >= 3 then s else Pad3(['0'] + s)
  }

  lemma {:induction false} ValuePad3(s: string)
    requires AllDigits(s)
    ensures Value(Pad3(s)) == Value(s)
    decreases 3 - |s|
  {
    if |s| < 3 {
      ValueLeadingZero(s);
      ValuePad3(['0'] + s);
    }
  }

  /** `n.ToString("000")`: the sign for a negative number, then the magnitude with at least three digits. */
  function Format000(n: int): (r: string)
    ensures 3 <= |r|
    ensures n >= 0 ==> AllDigits(r) && Value(r) == n
    ensures n < 0 ==> r[0] == '-' && AllDigits(r[1..]) && Value(r[1..]) == -n
  {
    var mag := if n < 0 then -n else n;
    ValueOfDigits(mag);
    ValuePad3(Digits(mag));
    if n < 0 then "-" + Pad3(Digits(mag)) else Pad3(Digits(mag))
  }

  // ---------------------------------------------------------------------
  // int.TryParse with NumberStyles.Integer.
  // ---------------------------------------------------------------------

  /** The blanks the number parser skips around a number: U+0009..U+000D and the space. */
  predicate IsParseWhite(c: char) {
    c == ' ' || ('\U{9}' <= c <= '\U{D}')
  }

  function SkipWhite(s: string): (r: string)
    ensures |r| <= |s| && r == s[|s| - |r|..]
    ensures r == [] || !IsParseWhite(r[0])
    ensures forall i :: 0 <= i < |s| - |r| ==> IsParseWhite(s[i])
  {
    if s != [] && IsParseWhite(s[0]) then SkipWhite(s[1..]) else s
  }

  /** The length of the run of decimal digits at the start of `s`. */
  function DigitRun(s: string): (k: nat)
    ensures k <= |s| && AllDigits(s[..k])
    ensures k < |s| ==> !IsDigit(s[k])
  {
    if s != [] && IsDigit(s[0]) then
      var k := 1 + DigitRun(s[1..]);
      assert s[..k] == [s[0]] + s[1..][..k - 1];
      k
    else 0
  }

  /** What may follow the digits: blanks, then nothing but NUL characters. */
  predicate TrailerOk(s: string) {
    var t := SkipWhite(s);
    forall i :: 0 <= i < |t| ==> t[i] == '\0'
  }

  /** The number at the start of `u` (after the sign), if it is digits followed by an acceptable trailer. */
  function UnsignedPart(u: string): (r: Option<nat>)
  {
    var k := DigitRun(u);
    if k == 0 || !TrailerOk(u[k..]) then None else Some(Value(u[..k]))
  }

  /** `int.TryParse(s, out n)`: Some(n) on success, None when the text is not an integer or does not fit in 32 bits. */
  function ParseInt32(s: string): (r: Option<int>)
    ensures r.Some? ==> IsInt32(r.value)
  {
    var t := SkipWhite(s);
    var signed := t != [] && (t[0] == '-' || t[0] == '+');
    match UnsignedPart(if signed then t[1..] else t)
    case None => None
    case Some(m) =>
      var v: int := if signed && t[0] == '-' then -(m as int) else m;
      if IsInt32(v) then Some(v) else None
  }

  /** A non-empty run of digits parses to its value. */
  lemma UnsignedPartOfDigits(u: string)
    requires u != [] && AllDigits(u)
    ensures UnsignedPart(u) == Some(Value(u))
  {
    DigitRunAll(u);
    assert u[|u|..] == [];
    assert u[..|u|] == u;
  }

  /** Parsing what "000" printed gives the number back, for every 32-bit integer. */
  lemma ParseFormat000(n: int)
    requires IsInt32(n)
    ensures ParseInt32(Format000(n)) == Some(n)
  {
    var s := Format000(n);
    assert !IsParseWhite(s[0]);
    assert SkipWhite(s) == s;
    if n < 0 {
      UnsignedPartOfDigits(s[1..]);
    } else {
      UnsignedPartOfDigits(s);
    }
  }

  lemma {:induction false} DigitRunAll(s: string)
    requires AllDigits(s)
    ensures DigitRun(s) == |s|
  {
    if s != [] {
      DigitRunAll(s[1..]);
    }
  }

  // ---------------------------------------------------------------------
  // The code step.
  // ---------------------------------------------------------------------

  const FirstCode: string := "TG001"

  /**
   * The outcome of `s.Substring(2)`, which counts UTF-16 code units: it
   * throws when `s` has fewer than two; it cuts a surrogate pair in half
   * when the second unit is the high half of a character above U+FFFF, and
   * the suffix then starts with a lone low surrogate, which this model's
   * strings cannot hold; otherwise it yields the characters after the
   * first two units.
   */
  datatype Cut = Throws | SplitPair | Suffix(rest: string)

  function Substring2(s: string): (c: Cut)
    ensures c.Throws? <==> Utf16Length(s) < 2
    ensures c.SplitPair? <==> 2 <= |s| && s[0] <= '\U{FFFF}' && s[1] > '\U{FFFF}'
    ensures c.Suffix? ==>
      && |c.rest| < |s|
      && s == s[..|s| - |c.rest|] + c.rest
      && Utf16Length(s[..|s| - |c.rest|]) == 2
  {
    if s == [] then Throws
    else if s[0] > '\U{FFFF}' then
      assert s == [s[0]] + s[1..];
      Suffix(s[1..])
    else if |s| < 2 then Throws
    else if s[1] > '\U{FFFF}' then SplitPair
    else
      assert s == s[..2] + s[2..];
      Suffix(s[2..])
  }

  /** Two UTF-16 code units are one character above U+FFFF or two characters below it. */
  lemma TwoUnits(p: string)
    requires Utf16Length(p) == 2
    ensures (|p| == 1 && p[0] > '\U{FFFF}') || (|p| == 2 && p[0] <= '\U{FFFF}' && p[1] <= '\U{FFFF}')
  {
    if p[0] <= '\U{FFFF}' {
      assert Utf16Length(p[1..]) == 1;
      assert p[1..][0] <= '\U{FFFF}';
    }
  }

  /** Whatever stands before the suffix, a prefix of two code units is cut off whole. */
  lemma CutAfterTwoUnits(prefix: string, rest: string)
    requires Utf16Length(prefix) == 2
    ensures Substring2(prefix + rest) == Suffix(rest)
  {
    TwoUnits(prefix);
    var s := prefix + rest;
    if |prefix| == 1 {
      assert s[1..] == rest;
    } else {
      assert s[2..] == rest;
    }
  }

  /**
   * `GenerarNuevoCodigo` after its query: `ultimo` is `MAX(Codigo)` (None for
   * NULL). None as the RESULT stands for the exception `Substring(2)` throws
   * on a code of one UTF-16 unit. A suffix that does not parse, a half
   * surrogate pair included, restarts at "TG001".
   */
  function NextCode(ultimo: Option<string>): (r: Option<string>)
    ensures r.None? <==> ultimo.Some? && Utf16Length(ultimo.value) == 1
    ensures r.Some? ==> 5 <= |r.value| && r.value[..2] == "TG"
  {
    match ultimo
    case None => Some(FirstCode)
    case Some(s) =>
      if s == [] then Some(FirstCode)
      else
        match Substring2(s)
        case Throws => None
        case SplitPair => Some(FirstCode)
        case Suffix(rest) =>
          match ParseInt32(rest)
          case Some(n) => Some("TG" + Format000(Wrap32(n + 1)))
          case None => Some(FirstCode)
  }

  /** An empty table (MAX is NULL) and an empty maximum both start numbering at "TG001". */
  lemma FirstCodeWhenEmpty(ultimo: Option<string>)
    requires ultimo.None? || ultimo.value == ""
    ensures NextCode(ultimo) == Some("TG001")
  {
  }

  /** After a code "XY" + n formatted with "000", the next code is "TG" + (n + 1), computed with wrap-around. */
  lemma NextCodeOfFormatted(prefix: string, n: int)
    requires Utf16Length(prefix) == 2 && IsInt32(n)
    ensures NextCode(Some(prefix + Format000(n))) == Some("TG" + Format000(Wrap32(n + 1)))
  {
    CutAfterTwoUnits(prefix, Format000(n));
    ParseFormat000(n);
  }

  /** Below the largest 32-bit integer the step is a plain increment. */
  lemma NextCodeIncrements(prefix: string, n: int)
    requires Utf16Length(prefix) == 2 && IsInt32(n) && n < Int32Max
    ensures NextCode(Some(prefix + Format000(n))) == Some("TG" + Format000(n + 1))
  {
    NextCodeOfFormatted(prefix, n);
  }

  /** The code after the largest 32-bit integer carries the most negative one (unchecked `+ 1`). */
  lemma NextCodeWraps(prefix: string, n: int, m: int)
    requires Utf16Length(prefix) == 2 && n == Int32Max && m == Int32Min
    ensures NextCode(Some(prefix + Format000(n))) == Some("TG" + Format000(m))
  {
    WrapPastMax(n, m);
    NextCodeOfFormatted(prefix, n);
  }

  lemma WrapPastMax(n: int, m: int)
    requires n == Int32Max && m == Int32Min
    ensures Wrap32(n + 1) == m
  {
  }

  /**
   * A suffix after the first two UTF-16 units that is not an integer restarts
   * numbering at "TG001"; so does a cut through a surrogate pair.
   */
  lemma UnparsableSuffixRestarts(prefix: string, rest: string)
    requires Utf16Length(prefix) == 2 && ParseInt32(rest).None?
    ensures NextCode(Some(prefix + rest)) == Some("TG001")
  {
    CutAfterTwoUnits(prefix, rest);
  }

  /** A code whose second UTF-16 unit is the high half of a surrogate pair restarts numbering at "TG001". */
  lemma SplitPairRestarts(s: string)
    requires 2 <= |s| && s[0] <= '\U{FFFF}' && s[1] > '\U{FFFF}'
    ensures NextCode(Some(s)) == Some("TG001")
  {
  }

  /** "\U{1F600}" alone has two UTF-16 units: `Substring(2)` gives "" and numbering restarts instead of throwing. */
  lemma SupplementaryAloneRestarts()
    ensures NextCode(Some("\U{1F600}")) == Some("TG001")
  {
    assert Substring2("\U{1F600}") == Suffix("");
  }

  /** In "a\U{1F600}12" the cut falls inside the surrogate pair, so numbering restarts. */
  lemma SplitPairExample()
    ensures NextCode(Some("a\U{1F600}12")) == Some("TG001")
  {
    SplitPairRestarts("a\U{1F600}12");
  }

  /** After "\U{1F600}009" the suffix "009" is cut whole, as after "TG009". */
  lemma SupplementaryPrefixIncrements()
    ensures NextCode(Some("\U{1F600}009")) == Some("TG010")
  {
    Format000Examples();
    assert Utf16Length("\U{1F600}") == 2;
    NextCodeStep("\U{1F600}", 9, "\U{1F600}009", "TG010");
  }

  lemma DigitsExamples()
    ensures Digits(9) == "9" && Digits(10) == "10"
    ensures Digits(999) == "999" && Digits(1000) == "1000"
  {
    assert Digits(1) == "1";
    assert Digits(9) == "9";
    assert Digits(10) == Digits(1) + "0";
    assert Digits(99) == Digits(9) + "9";
    assert Digits(999) == Digits(99) + "9";
    assert Digits(100) == Digits(10) + "0";
    assert Digits(1000) == Digits(100) + "0";
  }

  lemma Format000Examples()
    ensures Format000(9) == "009" && Format000(10) == "010"
    ensures Format000(999) == "999" && Format000(1000) == "1000"
  {
    DigitsExamples();
    assert ['0'] + "9" == "09" && ['0'] + "09" == "009" && ['0'] + "10" == "010";
    assert Pad3("009") == "009";
    assert Pad3("09") == Pad3("009");
    assert Pad3("9") == Pad3("09");
    assert Pad3("010") == "010";
    assert Pad3("10") == Pad3("010");
    assert Pad3("999") == "999";
    assert Pad3("1000") == "1000";
  }

  /** The step from code `a` to code `b` follows from the step between their numbers. */
  lemma NextCodeStep(prefix: string, n: int, a: string, b: string)
    requires Utf16Length(prefix) == 2 && IsInt32(n) && n < Int32Max
    requires a == prefix + Format000(n) && b == "TG" + Format000(n + 1)
    ensures NextCode(Some(a)) == Some(b)
  {
    NextCodeIncrements(prefix, n);
  }

  /** TG009 is followed by TG010: the counter carries into the next digit. */
  lemma NextCodeAfterTG009()
    ensures NextCode(Some("TG009")) == Some("TG010")
  {
    Format000Examples();
    NextCodeStep("TG", 9, "TG009", "TG010");
  }

  /** TG999 is followed by TG1000: the padding is a minimum width, not a fixed one. */
  lemma NextCodeAfterTG999()
    ensures NextCode(Some("TG999")) == Some("TG1000")
  {
    Format000Examples();
    NextCodeStep("TG", 999, "TG999", "TG1000");
  }

  /**
   * Once "TG1000" exists, "TG999" still sorts last in string order, so the
   * maximum stays "TG999" and the generator issues "TG1000" a second time.
   */
  lemma StringMaximumReissuesTG1000(codes: set<string>)
    requires "TG999" in codes && "TG1000" in codes
    requires forall c :: c in codes ==> LexLe(c, "TG999")
    ensures IsMaxCode(codes, Some("TG999"))
    ensures NextCode(Some("TG999")) == Some("TG1000")
    ensures LexLt("TG1000", "TG999")
  {
    NextCodeAfterTG999();
    assert LexLe("1000", "999");
    assert LexLe("TG1000", "TG999") by {
      assert "TG1000"[1..] == "G1000" && "G1000"[1..] == "1000";
      assert "TG999"[1..] == "G999" && "G999"[1..] == "999";
    }
  }
}

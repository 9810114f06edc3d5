/**
 * Cells of a spreadsheet row and the coercion of a cell to a count.
 *
 * A row is the list of string cells one spreadsheet line exports to. Reading a
 * column past the end of a row gives the empty string, and a cell becomes a
 * count only when it is a non-empty string of decimal digits; anything else
 * counts as 0.
 */
module Coercion {

  /** One exported spreadsheet row: its cells in column order. */
  type Row = seq<string>

  /** The cell in column `i`, or "" when the row has no such column. */
  function Cell(row: Row, i: nat): (c: string)
    ensures i < |row| ==> c == row[i]
    ensures |row| <= i ==> c == ""
  {
    if i < |row| then row[i] else ""
  }

  /**
   * The test that skips a row: no cells at all, or every cell empty. Exactly
   * the rows in which every column, present or missing, reads as "".
   */
  predicate IsBlank(row: Row): (b: bool)
    ensures b <==> forall i: nat :: Cell(row, i) == ""
  {
    assert (forall i: nat :: Cell(row, i) == "") ==> forall i | 0 <= i < |row| :: Cell(row, i) == row[i];
    |row| == 0 || forall i | 0 <= i < |row| :: row[i] == ""
  }

  /** An ASCII decimal digit. */
  predicate IsDigit(c: char) {
    '0' <= c <= '9'
  }

  /** The cell test `value.isdigit()`: non-empty, and nothing but digits. */
  predicate IsDigitString(s: string) {
    |s| > 0 && forall i | 0 <= i < |s| :: IsDigit(s[i])
  }

  function DigitValue(c: char): (d: nat)
    requires IsDigit(c)
    ensures d < 10
  {
    c as int - '0' as int
  }

  function DigitChar(d: nat): (c: char)
    requires d < 10
    ensures IsDigit(c) && DigitValue(c) == d
  {
    ('0' as int + d) as char
  }

  /** The number a string of digits spells in base 10, most significant digit first. */
  function DecimalValue(s: string): nat
    requires forall i | 0 <= i < |s| :: IsDigit(s[i])
    decreases |s|
  {
    if s == [] then 0 else 10 * DecimalValue(s[..|s| - 1]) + DigitValue(s[|s| - 1])
  }

  /**
   * `int(value) if value.isdigit() else 0`: the count a cell stands for. It is 0
   * exactly when the cell is not a digit string or spells zero ("0", "000").
   */
  function ToCount(s: string): (n: nat)
    ensures n == 0 <==> !IsDigitString(s) || forall i | 0 <= i < |s| :: s[i] == '0'
  {
    if IsDigitString(s) then ZeroValueIffZeros(s); DecimalValue(s) else 0
  }

  /** A digit string has value 0 exactly when all its digits are '0'. */
  lemma {:induction false} ZeroValueIffZeros(s: string)
    requires forall i | 0 <= i < |s| :: IsDigit(s[i])
    ensures DecimalValue(s) == 0 <==> forall i | 0 <= i < |s| :: s[i] == '0'
    decreases |s|
  {
    if s != [] {
      var p := s[..|s| - 1];
      ZeroValueIffZeros(p);
      assert forall i | 0 <= i < |p| :: p[i] == s[i];
    }
  }

  /** The shortest decimal spelling of `n` (the partner of ToCount). */
  function DecimalString(n: nat): (s: string)
    ensures IsDigitString(s)
    ensures n >= 10 ==> |s| >= 2 && s[0] != '0'
    decreases n
  {
    if n < 10 then [DigitChar(n)] else DecimalString(n / 10) + [DigitChar(n % 10)]
  }

  /** Every count can be written in a cell and read back unchanged. */
  lemma {:induction false} CountOfDecimalString(n: nat)
    ensures ToCount(DecimalString(n)) == n
  {
    var s := DecimalString(n);
    if n >= 10 {
      var p := DecimalString(n / 10);
      CountOfDecimalString(n / 10);
      assert s[..|s| - 1] == p;
      assert s[|s| - 1] == DigitChar(n % 10);
      assert DecimalValue(p) == n / 10;
      assert DecimalValue(s) == 10 * (n / 10) + n % 10;
    } else {
      assert s[..0] == [];
    }
  }

  /**
   * The converse round trip: a cell in canonical spelling (digits only, no
   * leading zero unless it is "0") is exactly the decimal spelling of its count.
   * With CountOfDecimalString, ToCount and DecimalString are inverse bijections
   * between counts and canonical cells.
   */
  lemma {:induction false} DecimalStringOfCount(s: string)
    requires IsDigitString(s) && (s[0] != '0' || |s| == 1)
    ensures DecimalString(ToCount(s)) == s
    decreases |s|
  {
    if |s| == 1 {
      assert DecimalValue(s) == DigitValue(s[0]) by { assert s[..0] == []; }
      assert [DigitChar(DigitValue(s[0]))] == s;
    } else {
      var p, c := s[..|s| - 1], s[|s| - 1];
      assert p[0] == s[0];
      assert IsDigitString(p);
      LeadingDigitPositive(p);
      DecimalStringOfCount(p);
      var v := DecimalValue(s);
      assert v == 10 * DecimalValue(p) + DigitValue(c);
      assert v / 10 == DecimalValue(p) && v % 10 == DigitValue(c);
      assert DigitChar(DigitValue(c)) == c;
      assert s == p + [c];
    }
  }

  /** A digit string that does not start with '0' has a positive value. */
  lemma {:induction false} LeadingDigitPositive(s: string)
    requires IsDigitString(s) && s[0] != '0'
    ensures DecimalValue(s) >= 1
    decreases |s|
  {
    if |s| == 1 {
      assert s[..0] == [];
    } else {
      var p := s[..|s| - 1];
      assert p[0] == s[0];
      LeadingDigitPositive(p);
    }
  }

  /** Leading zeros do not change a count: "007" counts 7, as `int("007")` does. */
  lemma {:induction false} LeadingZeroIgnored(s: string)
    requires forall i | 0 <= i < |s| :: IsDigit(s[i])
    ensures DecimalValue("0" + s) == DecimalValue(s)
    decreases |s|
  {
    if s != [] {
      var t := "0" + s;
      assert t[..|t| - 1] == "0" + s[..|s| - 1];
      assert t[|t| - 1] == s[|s| - 1];
      LeadingZeroIgnored(s[..|s| - 1]);
    }
  }

  /** Cells that are not plain digit strings count 0; plain ones count their value. */
  lemma CoercionExamples()
    ensures ToCount("") == 0
    ensures ToCount("1,234") == 0
    ensures ToCount("-3") == 0
    ensures ToCount(" 12") == 0
    ensures ToCount("1234") == 1234
    ensures ToCount("007") == 7
  {
    assert !IsDigit(',') && !IsDigit('-') && !IsDigit(' ');
    assert "1,234"[1] == ',';
    assert "-3"[0] == '-';
    assert " 12"[0] == ' ';
    assert "1234"[..3] == "123" && "123"[..2] == "12" && "12"[..1] == "1";
    assert "007"[..2] == "00" && "00"[..1] == "0";
    assert DecimalValue("1") == 1;
    assert DecimalValue("0") == 0;
  }
}

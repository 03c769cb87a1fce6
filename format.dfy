/** Stand-ins for the two renderers the program borrows: `fmt`'s fixed-point
    verbs ("%0.3f", "%0.2f") applied to prices, and the table writer used
    for multi-offer output. Both are deterministic text builders; nothing
    else in the model depends on their exact layout. */
module Format {
  import opened Base

  function DigitChar(d: nat): (c: char)
    requires d < 10
    ensures '0' <= c <= '9'
  {
    "0123456789"[d]
  }

  /** The decimal digits of n, most significant first. */
  function NatToString(n: nat): (s: string)
    ensures |s| >= 1
    ensures forall i :: 0 <= i < |s| ==> '0' <= s[i] <= '9'
    decreases n
  {
    if n < 10 then [DigitChar(n)] else NatToString(n / 10) + [DigitChar(n % 10)]
  }

  function Zeros(k: nat): (s: string)
    ensures |s| == k
  {
    if k == 0 then "" else "0" + Zeros(k - 1)
  }

  /** a / d rounded to the nearest integer, halves away from zero. */
  function RoundDiv(a: int, d: nat): int
    requires d > 0
  {
    if a >= 0 then (a + d / 2) / d else -((-a + d / 2) / d)
  }

  /** A non-negative integer read as a decimal number with `digits`
      fractional digits: its digit string, padded with leading zeros to
      leave at least one integer digit, with a point before the last
      `digits` of them. */
  function Unsigned(magnitude: nat, digits: nat): string {
    var s := NatToString(magnitude);
    var padded := if |s| <= digits then Zeros(digits + 1 - |s|) + s else s;
    if digits == 0 then padded
    else padded[..|padded| - digits] + "." + padded[|padded| - digits..]
  }

  /** The integer `scaled` read as a decimal number with `digits`
      fractional digits, e.g. Fixed(-1234, 3) == "-1.234". */
  function Fixed(scaled: int, digits: nat): string {
    if scaled < 0 then "-" + Unsigned(-scaled, digits) else Unsigned(scaled, digits)
  }

  /** "%0.3f" of an amount in micro-dollars. */
  function Dollars3(micros: int): string {
    Fixed(RoundDiv(micros, MicrosPerDollar / 1000), 3)
  }

  /** "%0.2f" of an amount in micro-dollars. */
  function Dollars2(micros: int): string {
    Fixed(RoundDiv(micros, MicrosPerDollar / 100), 2)
  }

  /** The hourly figure "$%0.3f" of a price. */
  function HourlyText(price: Price): string {
    "$" + Dollars3(price)
  }

  /** The monthly figure "$%0.2f" of a price, a month being HoursPerMonth hours. */
  function MonthlyText(price: Price): string {
    "$" + Dollars2(price * HoursPerMonth)
  }

  function Join(cells: seq<string>, sep: string): string {
    if cells == [] then "" else if |cells| == 1 then cells[0] else cells[0] + sep + Join(cells[1..], sep)
  }

  function Line(cells: seq<string>): string {
    "| " + Join(cells, " | ") + " |\n"
  }

  function Lines(rows: seq<seq<string>>): string {
    if rows == [] then "" else Line(rows[0]) + Lines(rows[1..])
  }

  /** One rendered table: a header line, then one line per row. */
  function Table(header: seq<string>, rows: seq<seq<string>>): string {
    Line(header) + Lines(rows)
  }
}

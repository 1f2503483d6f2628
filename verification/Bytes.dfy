/** Byte counts as text: a binary unit and one decimal, through a 64-bit float. */
module Bytes {
  import opened Text

  const KB := 1024
  const MB := KB * 1024
  const GB := MB * 1024
  const TB := GB * 1024

  /** Integers below this are exact in a 64-bit float. */
  const EXACT := 0x20_0000_0000_0000

  /** n / d to the nearest integer, ties to the even one. */
  function RoundHalfEven(n: nat, d: nat): nat
    requires d > 0
  {
    var q, r := n / d, n % d;
    if 2 * r < d || (2 * r == d && q % 2 == 0) then q else q + 1
  }

  /** The distance between neighbouring floats at b: 53 bits of b are kept. */
  function Spacing(b: nat): (u: nat)
    ensures u > 0
  {
    if b < EXACT then 1 else 2 * Spacing(b / 2)
  }

  /** float64(b) */
  function Float64(b: nat): nat { Spacing(b) * RoundHalfEven(b, Spacing(b)) }

  /** The amount that "%.1f" of float64(b)/float64(unit) prints, in tenths; dividing by a power of two is exact. */
  function Tenths(b: nat, unit: nat): nat
    requires unit > 0
  {
    RoundHalfEven(10 * Float64(b), unit)
  }

  function OneDecimal(tenths: nat): string { Decimal(tenths / 10) + "." + [Digit(tenths % 10)] }

  function FormatBytes(b: int): string {
    if b >= TB then OneDecimal(Tenths(b, TB)) + " TB"
    else if b >= GB then OneDecimal(Tenths(b, GB)) + " GB"
    else if b >= MB then OneDecimal(Tenths(b, MB)) + " MB"
    else if b >= KB then OneDecimal(Tenths(b, KB)) + " KB"
    else Itoa(b) + " B"
  }

  // ---------- Reading the text back ----------

  function UnitNamed(name: string): nat {
    match name
    case "B" => 1
    case "KB" => KB
    case "MB" => MB
    case "GB" => GB
    case "TB" => TB
    case _ => 0
  }

  /** Ten times the number before the unit. */
  function ReadTenths(number: string): Option<int> {
    var point := IndexOf(number, '.');
    if point == -1 then
      match Atoi(number) case Some(n) => Some(10 * n) case None => None
    else
      var digits := number[..point] + number[point + 1..];
      if AllDigits(digits) then Some(DigitsValue(digits)) else None
  }

  /** Ten times the number of bytes that a text stands for. */
  function Read(text: string): Option<int> {
    var space := LastIndexOf(text, ' ');
    if space == -1 then None
    else match ReadTenths(text[..space])
      case Some(n) => Some(n * UnitNamed(text[space + 1..]))
      case None => None
  }

  function UnitFor(b: int): nat {
    if b >= TB then TB else if b >= GB then GB else if b >= MB then MB else if b >= KB then KB else 1
  }

  /** Ten times the number of bytes that the text for b stands for. */
  function Shown(b: int): int {
    if b < KB then 10 * b else Tenths(b, UnitFor(b)) * UnitFor(b)
  }

  // ---------- Rounding ----------

  function Distance(x: int, y: int): nat { if x < y then y - x else x - y }

  lemma RoundError(n: nat, d: nat)
    requires d > 0
    ensures 2 * Distance(RoundHalfEven(n, d) * d, n) <= d
  {
    var q, r := n / d, n % d;
    assert n == q * d + r;
    assert (q + 1) * d == q * d + d;
  }

  lemma Less(x: int, y: int, d: nat)
    requires x * d < y * d
    ensures x < y
  {
    assert (y - x) * d == y * d - x * d;
  }

  lemma RoundExact(q: nat, d: nat)
    requires d > 0
    ensures RoundHalfEven(q * d, d) == q
  {
    RoundError(q * d, d);
    var x := RoundHalfEven(q * d, d);
    assert (q - 1) * d == q * d - d && (q + 1) * d == q * d + d;
    Less(q - 1, x, d);
    Less(x, q + 1, d);
  }

  lemma DivMonotone(m: nat, n: nat, d: nat)
    requires d > 0 && m <= n
    ensures m / d < n / d || (m / d == n / d && m % d <= n % d)
  {
    var p, q := m / d, n / d;
    assert m == p * d + m % d && n == q * d + n % d;
    assert (q + 1) * d == q * d + d;
    Less(p, q + 1, d);
  }

  lemma RoundMonotone(m: nat, n: nat, d: nat)
    requires d > 0 && m <= n
    ensures RoundHalfEven(m, d) <= RoundHalfEven(n, d)
  {
    DivMonotone(m, n, d);
  }

  lemma RoundWithin(lo: nat, n: nat, hi: nat, d: nat)
    requires d > 0 && lo * d <= n <= hi * d
    ensures lo <= RoundHalfEven(n, d) <= hi
  {
    RoundExact(lo, d);
    RoundExact(hi, d);
    RoundMonotone(lo * d, n, d);
    RoundMonotone(n, hi * d, d);
  }

  // ---------- The float ----------

  lemma {:induction false} SpacingBounds(b: nat)
    ensures b < EXACT * Spacing(b)
    ensures Spacing(b) > 1 ==> EXACT * Spacing(b) <= 2 * b
    decreases b
  {
    if b >= EXACT { SpacingBounds(b / 2); }
  }

  lemma {:induction false} SpacingMonotone(a: nat, b: nat)
    requires a <= b
    ensures Spacing(a) == Spacing(b) || 2 * Spacing(a) <= Spacing(b)
    decreases b
  {
    if a >= EXACT { SpacingMonotone(a / 2, b / 2); }
  }

  lemma FloatMonotone(a: nat, b: nat)
    requires a <= b
    ensures Float64(a) <= Float64(b)
  {
    hide RoundHalfEven, Spacing;
    var u, v := Spacing(a), Spacing(b);
    SpacingMonotone(a, b);
    if u == v {
      RoundMonotone(a, b, u);
      assert u * RoundHalfEven(a, u) <= u * RoundHalfEven(b, u);
    } else {
      SpacingBounds(a);
      SpacingBounds(b);
      RoundWithin(0, a, EXACT, u);
      RoundWithin(EXACT / 2, b, EXACT, v);
      assert u * RoundHalfEven(a, u) <= u * EXACT;
      assert v * (EXACT / 2) <= v * RoundHalfEven(b, v);
    }
  }

  lemma FloatExact(b: nat)
    requires b < EXACT
    ensures Float64(b) == b
  {
    RoundExact(b, 1);
  }

  // ---------- Main results ----------

  /**
   The amount shown differs from b by at most a twentieth of its unit, as long as b is below
   2^53; beyond that the float's own rounding, half a spacing, comes on top.
   */
  lemma ErrorBound(b: int)
    ensures b < 1024 ==> Shown(b) == 10 * b
    ensures 1024 <= b < 9007199254740992 ==> 2 * Distance(Shown(b), 10 * b) <= UnitFor(b)
    ensures b >= 9007199254740992 ==> 2 * Distance(Shown(b), 10 * b) <= UnitFor(b) + 10 * Spacing(b)
  {
    hide RoundHalfEven, Spacing, Float64, UnitFor;
    if b >= KB {
      UnitPositive(b);
      RoundError(10 * Float64(b), UnitFor(b));
      if b < EXACT { FloatExact(b); } else { FloatError(b); }
    }
  }

  lemma UnitPositive(b: int)
    ensures UnitFor(b) > 0
  {
  }

  lemma FloatError(b: nat)
    ensures 2 * Distance(Float64(b), b) <= Spacing(b)
  {
    hide RoundHalfEven, Spacing;
    RoundError(b, Spacing(b));
  }

  /** For every 64-bit count that spacing is at most 1024 bytes. */
  lemma SpacingOfInt64(b: nat)
    requires b <= MAX_INT64
    ensures Spacing(b) <= 1024
  {
    assert Spacing(MAX_INT64) == 1024;
    SpacingMonotone(b, MAX_INT64);
  }

  /** From one unit's own size up to what the next unit takes over. */
  lemma AmountRange(b: int)
    requires b >= KB
    ensures 10 <= Tenths(b, UnitFor(b))
    ensures b < TB ==> Tenths(b, UnitFor(b)) <= 10240
  {
    hide RoundHalfEven, Spacing;
    var unit := UnitFor(b);
    FloatMonotone(unit, b);
    FloatExact(unit);
    RoundWithin(10, 10 * Float64(b), 10 * Float64(b), unit);
    if b < TB {
      FloatExact(b);
      RoundWithin(10, 10 * b, 10240, unit);
    }
  }

  /** More bytes are never shown as less, across every unit boundary. */
  lemma ShownMonotone(a: int, b: int)
    requires a <= b
    ensures Shown(a) <= Shown(b)
  {
    hide RoundHalfEven, Spacing;
    if b >= KB {
      var unit := UnitFor(b);
      AmountRange(b);
      if a < KB {
        assert Shown(b) >= 10 * unit;
      } else if UnitFor(a) == unit {
        FloatMonotone(a, b);
        RoundMonotone(10 * Float64(a), 10 * Float64(b), unit);
      } else {
        AmountRange(a);
        assert unit >= 1024 * UnitFor(a);
      }
    }
  }

  /** A count shows as 1024.0 of its unit exactly when it lies within a twentieth below the next unit. */
  lemma RoundsUpToNextUnit(b: int)
    requires KB <= b < TB
    ensures Tenths(b, UnitFor(b)) == 10240 <==> 20 * (1024 * UnitFor(b) - b) <= UnitFor(b)
  {
    FloatExact(b);
    hide Float64, Spacing;
    var unit := UnitFor(b);
    var q, r := 10 * b / unit, 10 * b % unit;
    assert 10 * b == q * unit + r;
  }

  /** An amount exactly between two tenths is shown as the even one. */
  lemma TiesToEven(n: nat, d: nat)
    requires d > 0 && 2 * (n % d) == d
    ensures RoundHalfEven(n, d) % 2 == 0
  {
  }

  /** The unit printed after the number. */
  lemma UnitPrinted(b: int) returns (number: string)
    ensures var unit := if b >= 1_099_511_627_776 then "TB" else if b >= 1_073_741_824 then "GB"
                        else if b >= 1_048_576 then "MB" else if b >= 1024 then "KB" else "B";
            FormatBytes(b) == number + " " + unit
    ensures b < 1024 ==> number == Itoa(b)
  {
    hide Tenths, OneDecimal, Itoa;
    if b < KB {
      number := Itoa(b);
      assert number + " B" == number + " " + "B";
    } else {
      number := OneDecimal(Tenths(b, UnitFor(b)));
      assert number + " KB" == number + " " + "KB" && number + " MB" == number + " " + "MB";
      assert number + " GB" == number + " " + "GB" && number + " TB" == number + " " + "TB";
    }
  }

  lemma WholeNumberText(b: int)
    requires MIN_INT64 <= b <= MAX_INT64
    ensures ReadTenths(Itoa(b)) == Some(10 * b)
  {
    hide Atoi, DigitsValue;
    AtoiOfItoa(b);
    var digits := if b < 0 then Decimal(-b) else Decimal(b);
    assert !IsDigit('.') && '.' !in digits;
    assert Itoa(b) == if b < 0 then "-" + digits else digits;
    assert IndexOf(Itoa(b), '.') == -1;
  }

  lemma OneDecimalText(tenths: nat)
    ensures ReadTenths(OneDecimal(tenths)) == Some(tenths)
  {
    hide Atoi;
    var whole, digit := Decimal(tenths / 10), [Digit(tenths % 10)];
    assert OneDecimal(tenths) == whole + ['.'] + digit;
    assert forall c | c in whole :: IsDigit(c);
    IndexOfAt(whole, '.', digit);
    DecimalValue(tenths / 10);
    var text := OneDecimal(tenths);
    assert text[..|whole|] == whole && text[|whole| + 1..] == digit;
    assert (whole + digit)[..|whole|] == whole;
    assert AllDigits(whole + digit);
  }

  lemma ReadText(number: string, name: string)
    requires ' ' !in name && ReadTenths(number).Some?
    ensures Read(number + " " + name) == Some(ReadTenths(number).value * UnitNamed(name))
  {
    hide ReadTenths, UnitNamed;
    LastIndexOfAt(number, ' ', name);
    var text := number + " " + name;
    assert text == number + [' '] + name && text[..|number|] == number && text[|number| + 1..] == name;
  }

  /** Reading the text gives back exactly the amount shown. */
  lemma ReadBack(b: int)
    requires MIN_INT64 <= b <= MAX_INT64
    ensures Read(FormatBytes(b)) == Some(Shown(b))
  {
    hide Tenths, OneDecimal, Itoa, ReadTenths, Read;
    if b < KB {
      WholeNumberText(b);
      ReadText(Itoa(b), "B");
      assert Itoa(b) + " B" == Itoa(b) + " " + "B";
    } else {
      var tenths := Tenths(b, UnitFor(b));
      var name := if b >= TB then "TB" else if b >= GB then "GB" else if b >= MB then "MB" else "KB";
      OneDecimalText(tenths);
      ReadText(OneDecimal(tenths), name);
      assert UnitNamed(name) == UnitFor(b);
      assert FormatBytes(b) == OneDecimal(tenths) + " " + name;
    }
  }
}

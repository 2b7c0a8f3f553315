/**
 Human-readable rendering of byte totals for the end-of-run report
 (`format_file_size`). Units are binary (1024-based). A total below one
 kibibyte is shown as its exact decimal integer followed by " B"; larger
 totals are scaled into KB, MB or GB. The two-decimal rendering of the scaled
 value is floating-point formatting and is kept as the exact real quotient.
 */
module SizeFormat {

  const KiB: nat := 1024

  datatype Unit = B | KB | MB | GB

  /** Number of bytes in one of the given unit. */
  function Scale(u: Unit): nat
  {
    match u
    case B => 1
    case KB => KiB
    case MB => KiB * KiB
    case GB => KiB * KiB * KiB
  }

  /** The unit `u` is an acceptable choice for `size`: the size is at least
      one whole `u` (bytes are always acceptable from below), and below 1024 of
      them (gigabytes are the largest unit and have no upper bound). */
  predicate Fits(u: Unit, size: nat)
  {
    && (u == B || Scale(u) <= size)
    && (u == GB || size < Scale(u) * KiB)
  }

  /** The unit the report uses for `size`. */
  function UnitFor(size: nat): (u: Unit)
    ensures Fits(u, size)
  {
    if size < KiB then B
    else if size < KiB * KiB then KB
    else if size < KiB * KiB * KiB then MB
    else GB
  }

  /** Exactly one unit fits each size, so the choice is forced. */
  lemma FitsUnique(u: Unit, size: nat)
    requires Fits(u, size)
    ensures u == UnitFor(size)
  {
  }

  /* ---------------- decimal integers ---------------- */

  predicate IsDigit(c: char)
  {
    '0' <= c <= '9'
  }

  function DigitChar(d: nat): (c: char)
    requires d < 10
    ensures IsDigit(c)
  {
    ('0' as int + d) as char
  }

  /** Decimal text of a natural number, as Python's `f'{n}'` renders an int:
      digits only and no leading zero. */
  function Decimal(n: nat): (s: string)
    ensures 1 <= |s|
    ensures forall i :: 0 <= i < |s| ==> IsDigit(s[i])
    ensures s[0] == '0' ==> n == 0
    ensures |s| > 1 ==> s[0] != '0'
    ensures n == 0 ==> s == "0"
    decreases n
  {
    if n < 10 then [DigitChar(n)] else Decimal(n / 10) + [DigitChar(n % 10)]
  }

  /** Reads a string of digits back as a number. */
  function ParseDecimal(s: string): nat
    requires forall i :: 0 <= i < |s| ==> IsDigit(s[i])
    decreases |s|
  {
    if |s| == 0 then 0
    else
      assert IsDigit(s[|s| - 1]);
      ParseDecimal(s[..|s| - 1]) * 10 + (s[|s| - 1] as int - '0' as int)
  }

  /** Reading the decimal text back yields the number it was made from. */
  lemma {:induction false} DecimalRoundTrip(n: nat)
    ensures ParseDecimal(Decimal(n)) == n
    decreases n
  {
    var s := Decimal(n);
    if n >= 10 {
      DecimalRoundTrip(n / 10);
      assert s[..|s| - 1] == Decimal(n / 10);
    }
  }

  /* ---------------- the report text ---------------- */

  datatype Rendered =
    | Exact(text: string)              // "<n> B"
    | Scaled(value: real, unit: Unit)  // value shown with two decimals, then the unit

  const ByteSuffix: string := " B"

  /** `format_file_size`. */
  function FormatFileSize(size: nat): (r: Rendered)
    ensures r.Exact? <==> UnitFor(size) == B
    ensures r.Scaled? ==> r.unit == UnitFor(size)
    ensures r.Exact? ==>
      && |r.text| > |ByteSuffix|
      && r.text[|r.text| - |ByteSuffix|..] == ByteSuffix
      && (forall i :: 0 <= i < |r.text| - |ByteSuffix| ==> IsDigit(r.text[i]))
      && ParseDecimal(r.text[..|r.text| - |ByteSuffix|]) == size
      && (r.text[0] == '0' ==> size == 0)
      && (|r.text| > |ByteSuffix| + 1 ==> r.text[0] != '0')
    ensures r.Scaled? ==> r.value * Scale(r.unit) as real == size as real
    ensures r.Scaled? ==> 1.0 <= r.value
    ensures r.Scaled? && r.unit != GB ==> r.value < 1024.0
  {
    var u := UnitFor(size);
    if u == B then
      var digits := Decimal(size);
      DecimalRoundTrip(size);
      assert (digits + ByteSuffix)[..|digits|] == digits;
      Exact(digits + ByteSuffix)
    else
      Scaled(size as real / Scale(u) as real, u)
  }

  /** 512 bytes is shown as "512 B"; sizes that are whole multiples of a
      larger unit (2 KB, 5 MB, 3 GB) get that unit and a whole-number value. */
  lemma FormatExamples()
    ensures FormatFileSize(512) == Exact("512 B")
    ensures FormatFileSize(2048) == Scaled(2.0, KB)
    ensures FormatFileSize(5242880) == Scaled(5.0, MB)
    ensures FormatFileSize(3221225472) == Scaled(3.0, GB)
  {
    assert Decimal(512) == "512" by {
      assert Decimal(5) == "5";
      assert Decimal(51) == "51";
    }
  }
}

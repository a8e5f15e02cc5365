/** The number parsing of the tip calculator, tip_calculator/calculator.py:
    `parse_number` strips its input, tries the locale's `atof`, and when that
    raises falls back to cleaning the EU (`1.234,56`) or US (`1,234.56`)
    separators before `float`. */
module TipCalculator {
  import opened Wrappers
  import opened PyStr

  /** The separator cleaning of the fallback: when the last comma comes after
      the last dot the comma is the decimal mark (EU), otherwise the commas
      are thousands separators (US). */
  function SeparatorClean(value: string): string {
    if RFind(value, ',') > RFind(value, '.') then EuropeanForm(value) else UsForm(value)
  }

  /** `value.replace(".", "").replace(",", ".")`. */
  function EuropeanForm(value: string): string {
    Replace(Replace(value, '.', ""), ',', ".")
  }

  /** `value.replace(",", "")`. */
  function UsForm(value: string): string {
    Replace(value, ',', "")
  }

  /** `parse_number`: `atof` and `toFloat` stand for `locale.atof` and
      `float`, `None` for the `ValueError` they raise. */
  function ParseNumber(value: string, atof: string -> Option<real>, toFloat: string -> Option<real>): Option<real> {
    var v := Strip(value);
    match atof(v)
    case Some(x) => Some(x)
    case None => toFloat(SeparatorClean(v))
  }

  // ---------------------------------------------------------------------------
  // Properties

  /** The input is stripped before anything else, and the separator fallback
      runs only when `atof` raises. */
  lemma ParseNumberFacts(value: string, atof: string -> Option<real>, toFloat: string -> Option<real>)
    ensures ParseNumber(Strip(value), atof, toFloat) == ParseNumber(value, atof, toFloat)
    ensures atof(Strip(value)).Some? ==> ParseNumber(value, atof, toFloat) == atof(Strip(value))
    ensures atof(Strip(value)).None? ==> ParseNumber(value, atof, toFloat) == toFloat(SeparatorClean(Strip(value)))
  {
    StripIdempotent(value);
  }

  /** The EU rewriting leaves one dot per comma of the input and no comma,
      and every other character as often as the input has it. */
  lemma EuropeanFormCounts(value: string)
    ensures var clean := EuropeanForm(value);
      && Count(clean, '.') == Count(value, ',') && Count(clean, ',') == 0
      && forall x :: x != ',' && x != '.' ==> Count(clean, x) == Count(value, x)
  {
    var noDots := Replace(value, '.', "");
    assert Count(".", '.') == 1 && Count(".", ',') == 0 && Count("", '.') == 0 && Count("", ',') == 0;
    ReplaceCount(value, '.', "", '.');
    ReplaceCount(noDots, ',', ".", '.');
    ReplaceCount(noDots, ',', ".", ',');
    ReplaceCount(value, '.', "", ',');
    forall x | x != ',' && x != '.'
      ensures Count(EuropeanForm(value), x) == Count(value, x)
    {
      ReplaceCount(noDots, ',', ".", x);
      ReplaceCount(value, '.', "", x);
    }
  }

  /** The US rewriting removes the commas and keeps every other character as
      often as the input has it. */
  lemma UsFormCounts(value: string)
    ensures var clean := UsForm(value);
      && |clean| == |value| - Count(value, ',') && Count(clean, ',') == 0
      && forall x :: x != ',' ==> Count(clean, x) == Count(value, x)
  {
    ReplaceLength(value, ',');
    ReplaceCount(value, ',', "", ',');
    forall x | x != ','
      ensures Count(UsForm(value), x) == Count(value, x)
    {
      ReplaceCount(value, ',', "", x);
    }
  }

  /** The cleaned string never holds a comma; in the EU branch it has as many
      dots as the input had commas, and in the US branch as many dots as the
      input. */
  lemma SeparatorCleanFacts(value: string)
    ensures ',' !in SeparatorClean(value)
    ensures RFind(value, ',') > RFind(value, '.') ==> Count(SeparatorClean(value), '.') == Count(value, ',')
    ensures RFind(value, ',') <= RFind(value, '.') ==> Count(SeparatorClean(value), '.') == Count(value, '.')
  {
    EuropeanFormCounts(value);
    UsFormCounts(value);
    CountPositive(SeparatorClean(value), ',');
  }

  /** Both rewritings work piece by piece, so the characters they keep stay
      in their order: the rewriting of a concatenation is the concatenation
      of the rewritings. */
  lemma CleanPieceByPiece(value: string, a: string, b: string)
    requires value == a + b
    ensures EuropeanForm(value) == EuropeanForm(a) + EuropeanForm(b)
    ensures UsForm(value) == UsForm(a) + UsForm(b)
  {
    ReplaceConcat(a, b, '.', "");
    ReplaceConcat(Replace(a, '.', ""), Replace(b, '.', ""), ',', ".");
    ReplaceConcat(a, b, ',', "");
  }

  /** A string with neither separator passes through unchanged. */
  lemma NoSeparatorUnchanged(value: string)
    requires ',' !in value && '.' !in value
    ensures SeparatorClean(value) == value
  {
    ReplaceAbsent(value, ',', "");
  }

  /** `1.234,56` is read the EU way and `1,234.56` the US way; both give
      `1234.56`. */
  lemma EuropeanExample()
    ensures SeparatorClean("1.234,56") == "1234.56"
  {
    assert RFind("1.234,56", ',') == 5;
    assert forall k :: 5 <= k < 8 ==> "1.234,56"[k] != '.';
    assert Replace("1.234,56", '.', "") == "1234,56";
    assert Replace("1234,56", ',', ".") == "1234.56";
  }

  lemma UsExample()
    ensures SeparatorClean("1,234.56") == "1234.56"
  {
    assert forall k :: 1 < k < 8 ==> "1,234.56"[k] != ',';
    assert RFind("1,234.56", '.') == 5;
    assert Replace("1,234.56", ',', "") == "1234.56";
  }
}

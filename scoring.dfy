/** The team score (`calculate_team_score`): twelve numbers read from the
    record's fields, combined by a fixed weighted formula; any failure to
    read a number, or a division by zero, makes the score 0.0. Numbers are
    exact reals here. */
module Scoring {
  import opened Base
  import opened Strings
  import opened Fields

  /** The formula's inputs, after the percentage fields are divided by 100. */
  datatype Inputs = Inputs(
    gp: real,   // games played
    w: real,    // wins
    lg: real,   // wins in the last ten games
    pp: real,   // power play, as a fraction
    pk: real,   // penalty kill, as a fraction
    s: real,    // shots per game
    gf: real,   // goals for per game
    ga: real,   // goals against per game
    a: real,    // high-danger shots
    oz: real,   // offensive zone time, as a fraction
    dz: real,   // defensive zone time, as a fraction
    sv: real)   // save percentage

  /** `float(team_data.get(key, 0))`: a missing field reads as 0; None stands
      for the ValueError `float` raises on text it cannot read. */
  function FieldNumber(data: FieldSet, f: Field): Option<real> {
    if f in data then ParseDecimal(data[f]) else Some(0.0)
  }

  /** The save percentage: the field's text, "0" when missing, read by
      `float` on either branch of the source's `startswith('.')` test. */
  function SavePctNumber(data: FieldSet): Option<real> {
    var svText := if SvPct in data then data[SvPct] else "0";
    if StartsWith(svText, ".") then ParseDecimal(svText) else ParseDecimal(svText)
  }

  /** Both branches of the test read the same number. */
  lemma SavePctBranchesAgree(data: FieldSet)
    ensures SavePctNumber(data) == ParseDecimal(if SvPct in data then data[SvPct] else "0")
    ensures SvPct !in data ==> SavePctNumber(data) == Some(0.0)
  {
    ParseDecimalOfDigits("0");
  }

  /** All twelve inputs, or None when any of them cannot be read. */
  function ReadInputs(data: FieldSet): Option<Inputs> {
    var gp, w, lg := FieldNumber(data, GamesPlayed), FieldNumber(data, Wins), FieldNumber(data, L10Wins);
    var pp, pk := FieldNumber(data, PpPct), FieldNumber(data, PkPct);
    var s, gf, ga, a := FieldNumber(data, ShotsGp), FieldNumber(data, GfGp), FieldNumber(data, GaGp), FieldNumber(data, HighDangerShots);
    var oz, dz := FieldNumber(data, OzPct), FieldNumber(data, DzPct);
    var sv := SavePctNumber(data);
    if gp.None? || w.None? || lg.None? || pp.None? || pk.None? || s.None? || gf.None?
       || ga.None? || a.None? || oz.None? || dz.None? || sv.None? then None
    else
      Some(Inputs(gp.value, w.value, lg.value, pp.value / 100.0, pk.value / 100.0, s.value,
                  gf.value, ga.value, a.value, oz.value / 100.0, dz.value / 100.0, sv.value))
  }

  /** The three divisors that are not constants. */
  predicate Defined(x: Inputs) {
    x.gp != 0.0 && x.ga != 0.0 && x.dz != 0.0
  }

  /** The weighted formula. */
  function Formula(x: Inputs): real
    requires Defined(x)
  {
    (x.w / x.gp) / 0.6 + 2.6 * ((x.lg / 10.0) / 0.6) + 1.2 * (x.pp / 0.23) + 2.75 * (x.pk / 0.8)
    + 2.5 * (x.s / 30.0) + 1.85 * (x.gf / x.ga) + 2.5 * ((x.a / x.gp) / 6.5) + 1.75 * (x.oz / x.dz)
    + 1.7 * (x.sv / 0.9)
  }

  /** `calculate_team_score`, without the final rounding to two decimals. */
  function TeamScore(data: FieldSet): real {
    match ReadInputs(data)
    case None => 0.0
    case Some(x) => if Defined(x) then Formula(x) else 0.0
  }

  /** The guard: the formula is used exactly when every input reads and no
      divisor is zero; otherwise the score is 0.0. */
  lemma ScoreGuard(data: FieldSet)
    ensures ReadInputs(data).Some? && Defined(ReadInputs(data).value) ==> TeamScore(data) == Formula(ReadInputs(data).value)
    ensures ReadInputs(data).None? || !Defined(ReadInputs(data).value) ==> TeamScore(data) == 0.0
    ensures (|| FieldNumber(data, GamesPlayed) == Some(0.0) || FieldNumber(data, GaGp) == Some(0.0)
             || FieldNumber(data, DzPct) == Some(0.0)) ==> TeamScore(data) == 0.0
    ensures GamesPlayed !in data || GaGp !in data || DzPct !in data ==> TeamScore(data) == 0.0
  {
  }

  /** A missing field scores as if it held "0". */
  lemma MissingReadsAsZero(data: FieldSet, f: Field)
    ensures TeamScore(data - {f}) == TeamScore(data[f := "0"])
  {
    var d1, d2 := data - {f}, data[f := "0"];
    SameNumbers(data, f, GamesPlayed);
    SameNumbers(data, f, Wins);
    SameNumbers(data, f, L10Wins);
    SameNumbers(data, f, PpPct);
    SameNumbers(data, f, PkPct);
    SameNumbers(data, f, ShotsGp);
    SameNumbers(data, f, GfGp);
    SameNumbers(data, f, GaGp);
    SameNumbers(data, f, HighDangerShots);
    SameNumbers(data, f, OzPct);
    SameNumbers(data, f, DzPct);
    SameNumbers(data, f, SvPct);
    assert ReadInputs(d1) == ReadInputs(d2);
  }

  /** Removing a field and setting it to "0" read every field alike. */
  lemma SameNumbers(data: FieldSet, f: Field, g: Field)
    ensures FieldNumber(data - {f}, g) == FieldNumber(data[f := "0"], g)
    ensures g == SvPct ==> SavePctNumber(data - {f}) == SavePctNumber(data[f := "0"])
  {
    ParseDecimalOfDigits("0");
  }

  /** More wins over the same games played raise the score, by the wins
      term's share. */
  lemma MoreWinsScoreHigher(x: Inputs, w': real)
    requires Defined(x) && x.gp > 0.0 && w' > x.w
    ensures Formula(x.(w := w')) - Formula(x) == ((w' - x.w) / x.gp) / 0.6
    ensures Formula(x.(w := w')) > Formula(x)
  {
    var y := x.(w := w');
    assert y.w / y.gp - x.w / x.gp == (w' - x.w) / x.gp;
    PositiveQuotient(w' - x.w, x.gp);
  }

  /** More goals against, with goals for positive, lower the score. */
  lemma MoreGoalsAgainstScoreLower(x: Inputs, ga': real)
    requires Defined(x) && x.ga > 0.0 && x.gf > 0.0 && ga' > x.ga
    ensures Formula(x.(ga := ga')) < Formula(x)
  {
    QuotientShrinks(x.gf, x.ga, ga');
  }

  /** Every input non-negative and every divisor positive: the score is
      non-negative. */
  lemma ScoreNonNegative(x: Inputs)
    requires x.gp > 0.0 && x.ga > 0.0 && x.dz > 0.0
    requires x.w >= 0.0 && x.lg >= 0.0 && x.pp >= 0.0 && x.pk >= 0.0 && x.s >= 0.0
    requires x.gf >= 0.0 && x.a >= 0.0 && x.oz >= 0.0 && x.sv >= 0.0
    ensures Formula(x) >= 0.0
  {
    NonNegativeQuotient(x.w, x.gp);
    NonNegativeQuotient(x.gf, x.ga);
    NonNegativeQuotient(x.a, x.gp);
    NonNegativeQuotient(x.oz, x.dz);
  }

  lemma PositiveQuotient(n: real, d: real)
    requires n > 0.0 && d > 0.0
    ensures n / d > 0.0
  {
  }

  lemma NonNegativeQuotient(n: real, d: real)
    requires n >= 0.0 && d > 0.0
    ensures n / d >= 0.0
  {
  }

  lemma QuotientShrinks(n: real, d: real, d': real)
    requires n > 0.0 && 0.0 < d < d'
    ensures n / d' < n / d
  {
    assert n / d' * d' == n;
    assert n / d * d == n;
  }
}

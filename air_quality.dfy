/**
 * The six pollutants the air-quality service tracks, their labels, and the
 * grade classifier (`getGrade`) that maps a reading to one of the grades
 * "1" (good) to "4" (very bad).
 */
module AirQuality {

  datatype Pollutant = PM10 | PM25 | SO2 | CO | O3 | NO2

  /** The fixed order in which every per-pollutant block of the service runs. */
  const Pollutants: seq<Pollutant> := [PM10, PM25, SO2, CO, O3, NO2]

  /** Fine dust is measured in whole micrograms per cubic metre, gases in ppm. */
  predicate IsParticulate(p: Pollutant) { p == PM10 || p == PM25 }

  /**
   * The names the `AirQuality` enumeration gives each pollutant's
   * ObservedProperty and Datastream. That enumeration is not part of this
   * model; these stand-ins matter only through being pairwise distinct.
   */
  function ObservedPropertyName(p: Pollutant): string {
    match p
    case PM10 => "pm10Value" case PM25 => "pm25Value" case SO2 => "so2Value"
    case CO => "coValue" case O3 => "o3Value" case NO2 => "no2Value"
  }

  function DatastreamName(p: Pollutant): string {
    match p
    case PM10 => "PM10" case PM25 => "PM2.5" case SO2 => "SO2"
    case CO => "CO" case O3 => "O3" case NO2 => "NO2"
  }

  lemma LabelsAreDistinct(p: Pollutant, q: Pollutant)
    requires p != q
    ensures ObservedPropertyName(p) != ObservedPropertyName(q)
    ensures DatastreamName(p) != DatastreamName(q)
  {
  }

  const Good: string := "1"
  const Moderate: string := "2"
  const Bad: string := "3"
  const VeryBad: string := "4"

  predicate IsGrade(g: string) { g == Good || g == Moderate || g == Bad || g == VeryBad }

  /** The severity a grade stands for, 1 to 4. */
  function Level(g: string): int
    requires IsGrade(g)
  {
    if g == Good then 1 else if g == Moderate then 2 else if g == Bad then 3 else 4
  }

  // ---------------------------------------------------- the threshold table

  /** Inclusive lower bound of band `k` (2, 3 or 4) of a gas. */
  function GasLower(p: Pollutant, k: int): real
    requires !IsParticulate(p) && 2 <= k <= 4
  {
    match p
    case SO2 => if k == 2 then 0.021 else if k == 3 then 0.051 else 0.151
    case CO => if k == 2 then 2.01 else if k == 3 then 9.01 else 15.01
    case O3 => if k == 2 then 0.031 else if k == 3 then 0.091 else 0.151
    case NO2 => if k == 2 then 0.031 else if k == 3 then 0.061 else 0.201
  }

  /** Inclusive upper bound of band `k` (2, 3 or 4) of a gas. */
  function GasUpper(p: Pollutant, k: int): real
    requires !IsParticulate(p) && 2 <= k <= 4
  {
    match p
    case SO2 => if k == 2 then 0.05 else if k == 3 then 0.15 else 1.0
    case CO => if k == 2 then 9.0 else if k == 3 then 15.0 else 50.0
    case O3 => if k == 2 then 0.09 else if k == 3 then 0.15 else 0.6
    case NO2 => if k == 2 then 0.06 else if k == 3 then 0.2 else 2.0
  }

  /** Inclusive lower bound of band `k` (2, 3 or 4) of a particulate. */
  function DustLower(p: Pollutant, k: int): int
    requires IsParticulate(p) && 2 <= k <= 4
  {
    if p == PM10 then (if k == 2 then 31 else if k == 3 then 81 else 151)
    else (if k == 2 then 16 else if k == 3 then 36 else 76)
  }

  /** Inclusive upper bound of band `k` (2, 3 or 4) of a particulate. */
  function DustUpper(p: Pollutant, k: int): int
    requires IsParticulate(p) && 2 <= k <= 4
  {
    if p == PM10 then (if k == 2 then 80 else if k == 3 then 150 else 600)
    else (if k == 2 then 35 else if k == 3 then 75 else 500)
  }

  predicate InGasBand(p: Pollutant, k: int, x: real)
    requires !IsParticulate(p) && 2 <= k <= 4
  {
    GasLower(p, k) <= x <= GasUpper(p, k)
  }

  predicate InDustBand(p: Pollutant, k: int, n: int)
    requires IsParticulate(p) && 2 <= k <= 4
  {
    DustLower(p, k) <= n <= DustUpper(p, k)
  }

  // ------------------------------------------------------------ classifier

  /**
   * `getGrade` for SO2, CO, O3 and NO2, with the tests as the source writes
   * them, including the `0 >= x` first test of CO and O3. A value in no band
   * (negative, in a gap between bands, above the top) grades "1".
   */
  function GasGrade(p: Pollutant, x: real): (g: string)
    requires !IsParticulate(p)
    ensures IsGrade(g)
    ensures g == Moderate <==> InGasBand(p, 2, x)
    ensures g == Bad <==> InGasBand(p, 3, x)
    ensures g == VeryBad <==> InGasBand(p, 4, x)
    ensures g == Good <==> !InGasBand(p, 2, x) && !InGasBand(p, 3, x) && !InGasBand(p, 4, x)
  {
    match p
    case SO2 =>
      if x >= 0.0 && x <= 0.02 then Good
      else if x >= 0.021 && x <= 0.05 then Moderate
      else if x >= 0.051 && x <= 0.15 then Bad
      else if x >= 0.151 && x <= 1.0 then VeryBad
      else Good
    case CO =>
      if 0.0 >= x && x <= 2.0 then Good
      else if x >= 2.01 && x <= 9.0 then Moderate
      else if x >= 9.01 && x <= 15.0 then Bad
      else if x >= 15.01 && x <= 50.0 then VeryBad
      else Good
    case O3 =>
      if 0.0 >= x && x <= 0.03 then Good
      else if x >= 0.031 && x <= 0.09 then Moderate
      else if x >= 0.091 && x <= 0.15 then Bad
      else if x >= 0.151 && x <= 0.6 then VeryBad
      else Good
    case NO2 =>
      if x >= 0.0 && x <= 0.03 then Good
      else if x >= 0.031 && x <= 0.06 then Moderate
      else if x >= 0.061 && x <= 0.2 then Bad
      else if x >= 0.201 && x <= 2.0 then VeryBad
      else Good
  }

  /** `getGrade` for PM10 and PM2.5, whose readings are parsed as integers. */
  function DustGrade(p: Pollutant, n: int): (g: string)
    requires IsParticulate(p)
    ensures IsGrade(g)
    ensures g == Moderate <==> InDustBand(p, 2, n)
    ensures g == Bad <==> InDustBand(p, 3, n)
    ensures g == VeryBad <==> InDustBand(p, 4, n)
    ensures g == Good <==> !InDustBand(p, 2, n) && !InDustBand(p, 3, n) && !InDustBand(p, 4, n)
  {
    if p == PM10 then
      if n >= 0 && n <= 30 then Good
      else if n >= 31 && n <= 80 then Moderate
      else if n >= 81 && n <= 150 then Bad
      else if n >= 151 && n <= 600 then VeryBad
      else Good
    else
      if n >= 0 && n <= 15 then Good
      else if n >= 16 && n <= 35 then Moderate
      else if n >= 36 && n <= 75 then Bad
      else if n >= 76 && n <= 500 then VeryBad
      else Good
  }

  // ------------------------------------------------------------- properties

  /**
   * The conventional first test `0 <= x && x <= hi` in place of the
   * `0 >= x` that CO and O3 use: the grade is the same for every value,
   * because both a failed first test and the final else give "1".
   */
  function ConventionalGasGrade(p: Pollutant, x: real): (g: string)
    requires !IsParticulate(p)
  {
    var hi := match p case SO2 => 0.02 case CO => 2.0 case O3 => 0.03 case NO2 => 0.03;
    if 0.0 <= x && x <= hi then Good
    else if InGasBand(p, 2, x) then Moderate
    else if InGasBand(p, 3, x) then Bad
    else if InGasBand(p, 4, x) then VeryBad
    else Good
  }

  lemma OddZeroTestIsHarmless(p: Pollutant, x: real)
    requires !IsParticulate(p)
    ensures GasGrade(p, x) == ConventionalGasGrade(p, x)
  {
  }

  /** Negative readings and readings above the top band grade "1", as do gap values. */
  lemma OutOfTableGradesGood(p: Pollutant, x: real)
    requires !IsParticulate(p)
    requires x < 0.0 || x > GasUpper(p, 4)
    ensures GasGrade(p, x) == Good
  {
  }

  lemma SulphurDioxideGapGradesGood()
    ensures GasGrade(SO2, 0.0205) == Good
  {
  }

  lemma DustOutOfTableGradesGood(p: Pollutant, n: int)
    requires IsParticulate(p)
    requires n < 0 || n > DustUpper(p, 4)
    ensures DustGrade(p, n) == Good
  {
  }

  /** Raising a particulate reading never lowers its grade while it stays in the table. */
  lemma DustGradeMonotone(p: Pollutant, m: int, n: int)
    requires IsParticulate(p)
    requires 0 <= m <= n <= DustUpper(p, 4)
    ensures Level(DustGrade(p, m)) <= Level(DustGrade(p, n))
  {
  }
}

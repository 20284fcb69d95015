/**
 * What the thermostat entity shows and what it asks for: the Besmart work
 * modes and their preset names, the season and the heating/cooling mode,
 * the current action and the temperature unit.
 */
module Views {
  import opened Wrappers
  import opened Json
  import Payload

  // ---------------------------------------------------------------------------
  // Presets
  // ---------------------------------------------------------------------------

  /** The Besmart work modes. */
  const AUTO := 0
  const MANUAL := 1
  const ECONOMY := 2
  const PARTY := 3
  const IDLE := 4

  /** The preset names, in the order of the work modes they stand for. */
  const PRESETS: seq<string> := ["AUTO", "MANUAL", "ECO", "PARTY", "IDLE"]

  /** The preset shown for a work mode; an unknown mode shows as "IDLE". */
  function PresetName(mode: int): (name: string)
    ensures name in PRESETS
    ensures 0 <= mode < |PRESETS| ==> name == PRESETS[mode]
    ensures !(0 <= mode < |PRESETS|) ==> name == "IDLE"
  {
    if mode == AUTO then "AUTO"
    else if mode == MANUAL then "MANUAL"
    else if mode == ECONOMY then "ECO"
    else if mode == PARTY then "PARTY"
    else "IDLE"
  }

  /** The work mode asked for by a preset; an unknown preset asks for AUTO. */
  function PresetMode(name: string): (mode: int)
    ensures 0 <= mode < |PRESETS|
    ensures name in PRESETS ==> PRESETS[mode] == name
    ensures name !in PRESETS ==> mode == AUTO
  {
    if name == "AUTO" then AUTO
    else if name == "MANUAL" then MANUAL
    else if name == "ECO" then ECONOMY
    else if name == "PARTY" then PARTY
    else if name == "IDLE" then IDLE
    else AUTO
  }

  /** The two tables are inverse on the five work modes and the five presets. */
  lemma PresetRoundTrip(mode: int, name: string)
    ensures 0 <= mode < |PRESETS| ==> PresetMode(PresetName(mode)) == mode
    ensures name in PRESETS ==> PresetName(PresetMode(name)) == name
  {
  }

  // ---------------------------------------------------------------------------
  // Season, mode and action
  // ---------------------------------------------------------------------------

  /** The Home Assistant heating/cooling modes. */
  datatype HvacMode = Off | Heat | Cool | HeatCool | Auto | Dry | FanOnly

  /** What the device is doing; Idle is the action Home Assistant calls "off". */
  datatype HvacAction = Heating | Cooling | Idle

  /**
   * The mode shown for the room's season: "1" is heating, "0" cooling, any
   * other season no mode. Looking up a list or dict raises.
   */
  function HvacModeOf(season: Value): (r: Outcome<Option<HvacMode>>)
    ensures r.Threw? <==> !Hashable(season)
    ensures r == Returned(Some(Heat)) <==> season == Str("1")
    ensures r == Returned(Some(Cool)) <==> season == Str("0")
    ensures r.Returned? && r.value.Some? ==> r.value.value in {Heat, Cool}
  {
    if !Hashable(season) then Threw
    else if season == Str("1") then Returned(Some(Heat))
    else if season == Str("0") then Returned(Some(Cool))
    else Returned(None)
  }

  /** The season asked for by a mode: "1" for heating, "0" for cooling, none for any other mode. */
  function SeasonFor(mode: HvacMode): Value {
    match mode
    case Heat => Str("1")
    case Cool => Str("0")
    case _ => Null
  }

  /**
   * Setting a mode and reading it back agree: heating and cooling come back
   * as set, any other mode comes back as no mode, and a season that shows a
   * mode is the season that mode asks for.
   */
  lemma SeasonRoundTrip(mode: HvacMode, season: Value)
    ensures mode in {Heat, Cool} ==> HvacModeOf(SeasonFor(mode)) == Returned(Some(mode))
    ensures !(mode in {Heat, Cool}) ==> HvacModeOf(SeasonFor(mode)) == Returned(None)
    ensures HvacModeOf(season) == Returned(Some(mode)) ==> SeasonFor(mode) == season
  {
  }

  /**
   * `hvac_mode` shows a mode exactly for the season that mode writes, and only
   * heating or cooling; any other hashable season shows none, and a list or
   * dict raises.
   */
  lemma ShownModeIsSeason(season: Value, mode: HvacMode)
    ensures HvacModeOf(season) == Returned(Some(mode)) <==> mode in {Heat, Cool} && season == SeasonFor(mode)
    ensures Hashable(season) && season != SeasonFor(Heat) && season != SeasonFor(Cool) ==> HvacModeOf(season) == Returned(None)
    ensures !Hashable(season) ==> HvacModeOf(season) == Threw
  {
  }

  /**
   * The action: idle unless the room is heating; heating when the season is
   * heating and cooling otherwise, even when the season is unknown. The
   * season is looked at only while heating.
   */
  function HvacActionOf(heating: bool, season: Value): (r: Outcome<HvacAction>)
    ensures r == Returned(Idle) <==> !heating
    ensures r == Returned(Heating) <==> heating && season == Str("1")
    ensures r == Returned(Cooling) <==> heating && Hashable(season) && season != Str("1")
    ensures r.Threw? <==> heating && !Hashable(season)
  {
    if !heating then Returned(Idle)
    else
      match HvacModeOf(season)
      case Threw => Threw
      case Returned(mode) => Returned(if mode == Some(Heat) then Heating else Cooling)
  }

  // ---------------------------------------------------------------------------
  // Temperature unit
  // ---------------------------------------------------------------------------

  datatype TemperatureUnit = Celsius | Fahrenheit

  /** Celsius exactly when the room's unit sentinel is the string "0". */
  function UnitOf(unit: Value): (r: TemperatureUnit)
    ensures r == Celsius <==> unit == Str("0")
  {
    if unit == Str("0") then Celsius else Fahrenheit
  }

  /**
   * The unit shown and the unit used for writes differ for the "N/A"
   * sentinel: such a room shows Fahrenheit, yet its setpoints are sent
   * unconverted. Every room shown in Celsius is written unconverted.
   */
  lemma ShownAndSentUnits(unit: Value)
    ensures UnitOf(Str("N/A")) == Fahrenheit && Payload.SendsAsGiven(Str("N/A"))
    ensures UnitOf(unit) == Celsius ==> Payload.SendsAsGiven(unit)
    ensures UnitOf(unit) == Fahrenheit && !Payload.SendsAsGiven(unit) ==> unit != Str("0") && unit != Str("N/A")
  {
  }
}

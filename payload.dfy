/**
 * The request bodies the client posts to the cloud, and the checks it makes
 * of the replies: the mode write, the four temperature writes (the setpoint
 * split at its decimal point into two fields) and the settings
 * read-modify-write (the previous settings copied, only the season changed).
 */
module Payload {
  import opened Wrappers
  import opened Json
  import opened Text
  import opened Tenths

  /** setRoomTemp.php (the default), setComfTemp.php, setEconTemp.php and setFrostTemp.php. */
  datatype TempEndpoint = RoomTemp | ComfortTemp | EcoTemp | FrostTemp

  datatype ModePayload = ModePayload(deviceId: Value, therId: Value, mode: int)

  datatype TempPayload = TempPayload(deviceId: Value, therId: Value, tempSet: string, tempSetFloat: string)

  datatype SettingsPayload = SettingsPayload(
    deviceId: Value,
    therId: Value,
    minTempSetPointIP: string,
    minTempSetPointFP: string,
    maxTempSetPointIP: string,
    maxTempSetPointFP: string,
    sensorInfluence: Value,
    tempCurveIP: string,
    tempCurveFP: string,
    unit: Value,
    season: Value,
    boilerIsOnline: Value)

  // ---------------------------------------------------------------------------
  // Success sentinels
  // ---------------------------------------------------------------------------

  /** The `error` value by which the cloud confirms a mode or temperature write. */
  const WRITE_CONFIRMED := 1

  /** The `error` value by which the cloud confirms a settings read or write, and a room-data read. */
  const READ_CONFIRMED := 0

  /**
   * `msg.get("error") == code`; None when the reply is not a dict, where the
   * call raises AttributeError.
   */
  function ErrorIs(msg: Value, code: int): (r: Option<bool>)
    ensures r.Some? <==> msg.Obj?
    ensures r == Some(true) <==> msg.Obj? && EqualsInt(FieldOr(msg.fields, "error", Null), code)
  {
    match Get(msg, "error")
    case None => None
    case Some(e) => Some(EqualsInt(e, code))
  }

  /** A reply that confirms a write is never a confirmed read, and the other way round. */
  lemma SentinelsExclusive(msg: Value)
    ensures ErrorIs(msg, WRITE_CONFIRMED) == Some(true) ==> ErrorIs(msg, READ_CONFIRMED) == Some(false)
    ensures ErrorIs(msg, READ_CONFIRMED) == Some(true) ==> ErrorIs(msg, WRITE_CONFIRMED) == Some(false)
  {
  }

  // ---------------------------------------------------------------------------
  // Temperature writes
  // ---------------------------------------------------------------------------

  /** The unit sentinels for which the setpoint is sent as given rather than converted. */
  predicate SendsAsGiven(unit: Value) {
    unit == Str("N/A") || unit == Str("0")
  }

  /**
   * The two wire fields `tempSet` and `tempSetFloat` for a setpoint of
   * `tenths` tenths of a degree in a room whose unit sentinel is `unit`:
   * the text of the setpoint, or of its conversion `fahToCent` when the unit
   * is neither "N/A" nor "0", split at the decimal point. None where Python
   * raises: a list or dict as unit cannot be looked up in a set.
   */
  function TempFields(unit: Value, tenths: int, fahToCent: int -> int): (r: Option<(string, string)>)
    ensures r.Some? <==> Hashable(unit)
    ensures r.Some? ==>
      var sent := if SendsAsGiven(unit) then tenths else fahToCent(tenths);
      r.value.0 + "." + r.value.1 == TenthsToString(sent)
      && r.value.0 == TenthsWhole(sent) && r.value.1 == TenthsFrac(sent)
  {
    if !Hashable(unit) then None
    else
      var sent := if SendsAsGiven(unit) then tenths else fahToCent(tenths);
      TenthsSplit(sent);
      SplitPair(TenthsToString(sent), '.')
  }

  /** 21.3 degrees in a room with unit "0" is sent as tempSet "21" and tempSetFloat "3". */
  lemma TempFieldsExample(fahToCent: int -> int)
    ensures TempFields(Str("0"), 213, fahToCent) == Some(("21", "3"))
  {
    assert TenthsWhole(213) == NatToString(21) == "21";
    assert TenthsFrac(213) == "3";
  }

  // ---------------------------------------------------------------------------
  // Settings read-modify-write
  // ---------------------------------------------------------------------------

  /** `str(v).split(".")` into two parts; None where Python raises (no point, several points, a list or dict). */
  function SplitSetting(v: Value): Option<(string, string)> {
    match ToStr(v)
    case None => None
    case Some(s) => SplitPair(s, '.')
  }

  /** The settings fields the client copies from the previous settings, with their defaults when absent. */
  function SettingDefault(key: string): Value {
    if key == "minTempSetPoint" || key == "maxTempSetPoint" then Str("30.0")
    else if key == "tempCurver" then Str("0.0")
    else Str("0")
  }

  const COPIED_SETTINGS: set<string> :=
    {"minTempSetPoint", "maxTempSetPoint", "tempCurver", "sensorInfluence", "unit", "boilerIsOnline"}

  /** The previous value of a copied setting, or its default. */
  function Previous(previous: map<string, Value>, key: string): Value {
    FieldOr(previous, key, SettingDefault(key))
  }

  /**
   * The setSetting.php body built from the previous settings: the three
   * decimal settings split at their point, the others copied, `season`
   * replaced. None where Python raises ValueError because one of the three
   * does not split into exactly two parts.
   */
  function BuildSettings(deviceId: Value, therId: Value, previous: map<string, Value>, season: Value): (r: Option<SettingsPayload>)
    ensures r.Some? <==>
      SplitSetting(Previous(previous, "minTempSetPoint")).Some?
      && SplitSetting(Previous(previous, "maxTempSetPoint")).Some?
      && SplitSetting(Previous(previous, "tempCurver")).Some?
    ensures r.Some? ==> r.value.deviceId == deviceId && r.value.therId == therId && r.value.season == season
  {
    match (SplitSetting(Previous(previous, "minTempSetPoint")),
           SplitSetting(Previous(previous, "maxTempSetPoint")),
           SplitSetting(Previous(previous, "tempCurver")))
    case (Some(minT), Some(maxT), Some(curve)) =>
      Some(SettingsPayload(
        deviceId, therId,
        minT.0, minT.1,
        maxT.0, maxT.1,
        Previous(previous, "sensorInfluence"),
        curve.0, curve.1,
        Previous(previous, "unit"),
        season,
        Previous(previous, "boilerIsOnline")))
    case _ => None
  }

  /** The value the device keeps for setting `key` after it accepts the body `p`: split fields are read back joined. */
  function Stored(p: SettingsPayload, key: string): Value {
    if key == "minTempSetPoint" then Str(p.minTempSetPointIP + "." + p.minTempSetPointFP)
    else if key == "maxTempSetPoint" then Str(p.maxTempSetPointIP + "." + p.maxTempSetPointFP)
    else if key == "tempCurver" then Str(p.tempCurveIP + "." + p.tempCurveFP)
    else if key == "sensorInfluence" then p.sensorInfluence
    else if key == "unit" then p.unit
    else if key == "boilerIsOnline" then p.boilerIsOnline
    else if key == "season" then p.season
    else Null
  }

  /** Only a string can print with a decimal point. */
  lemma PointOnlyInStrings(v: Value, s: string)
    requires ToStr(v) == Some(s) && '.' in s
    ensures v == Str(s)
  {
  }

  /** A setting that splits is a string, and its two parts join back into it. */
  lemma SplitSettingRejoins(v: Value)
    requires SplitSetting(v).Some?
    ensures v == Str(SplitSetting(v).value.0 + "." + SplitSetting(v).value.1)
  {
    var s := ToStr(v).value;
    var parts := SplitSetting(v).value;
    assert s == parts.0 + "." + parts.1;
    assert s[|parts.0|] == '.';
    PointOnlyInStrings(v, s);
  }

  /**
   * The settings write keeps every copied setting as it was (or at its
   * default when it was absent) and changes only the season.
   */
  lemma OnlySeasonChanges(deviceId: Value, therId: Value, previous: map<string, Value>, season: Value)
    requires BuildSettings(deviceId, therId, previous, season).Some?
    ensures var p := BuildSettings(deviceId, therId, previous, season).value;
      (forall key :: key in COPIED_SETTINGS ==> Stored(p, key) == Previous(previous, key))
      && Stored(p, "season") == season
  {
    var p := BuildSettings(deviceId, therId, previous, season).value;
    var minT := SplitSetting(Previous(previous, "minTempSetPoint")).value;
    var maxT := SplitSetting(Previous(previous, "maxTempSetPoint")).value;
    var curve := SplitSetting(Previous(previous, "tempCurver")).value;
    assert p == SettingsPayload(deviceId, therId, minT.0, minT.1, maxT.0, maxT.1,
      Previous(previous, "sensorInfluence"), curve.0, curve.1, Previous(previous, "unit"), season,
      Previous(previous, "boilerIsOnline"));
    SplitSettingRejoins(Previous(previous, "minTempSetPoint"));
    SplitSettingRejoins(Previous(previous, "maxTempSetPoint"));
    SplitSettingRejoins(Previous(previous, "tempCurver"));
    forall key | key in COPIED_SETTINGS ensures Stored(p, key) == Previous(previous, key) {
      assert key == "minTempSetPoint" || key == "maxTempSetPoint" || key == "tempCurver"
        || key == "sensorInfluence" || key == "unit" || key == "boilerIsOnline";
    }
  }

  /** Settings as a JSON number cannot be split: `str(30)` has no point, so the write raises. */
  lemma NumericSettingRaises(previous: map<string, Value>, n: int, deviceId: Value, therId: Value, season: Value)
    requires FieldOr(previous, "minTempSetPoint", Null) == Num(n) && "minTempSetPoint" in previous
    ensures BuildSettings(deviceId, therId, previous, season).None?
  {
    if SplitSetting(Num(n)).Some? {
      SplitSettingRejoins(Num(n));
    }
  }
}

# Besmart thermostat client, modelled in Dafny

This project models the Home Assistant integration for Besmart (Riello)
Wi-Fi thermostats. It covers two parts.

- **The cloud client** (`Besmart`) logs in to the Besmart cloud and keeps the
  session. It reads the room list into a directory keyed by lower-cased room
  name and refreshes that directory when it is more than 120 seconds old. It
  fetches a room's data, writes a room's work mode and its four kinds of
  setpoint, and does the settings read-modify-write that changes the season.
- **The thermostat entity** (`Thermostat`) polls one room and turns the room
  data into readings: the schedule mark of the current half hour, the
  battery, the frost, economy and comfort setpoints, the current temperature,
  the heating flag, the work mode, the unit and the season. When a preset, a
  heating/cooling mode or setpoints are set, it maps them to client writes.

Module layout:

- `Wrappers`: the `Option` and `Outcome` types. `Outcome.Threw` is an
  exception that escapes the call.
- `Text`: the string operations the client uses. These are ASCII `lower`,
  `split`, and decimal printing and parsing.
- `Tenths`: the text of a temperature rounded to tenths, and `float` of
  that text.
- `Json`: decoded replies, plus Python's truthiness, `.get`, `==` against
  int literals, indexing, `float`, `int` and `str` on them.
- `Payload`: the request bodies and the checks made of the replies' `error`
  sentinel.
- `Session`: the client as functions from state to state. The state is the
  session, the directory, its refresh time, the log of exchanges, and the
  replies the cloud will give.
- `SessionFacts`: what the client guarantees.
- `Client`: the class `Besmart`, whose methods update its fields in place
  and are proved equal to the `Session` functions.
- `Schedule`: the weekly program and the half-hour slot.
- `Views`: the preset, mode, action and unit tables.
- `Climate`: the thermostat's poll, its setpoint writes, and the class
  `Thermostat`.

The cloud is an input. Each request takes the next reply from `inbox`: an ok
body, a status that is not ok, an ok status whose body is not JSON (decoding
it raises), or an exception from the post itself. A request with no reply
left raises, like a timeout. Every request is logged with the reply it took. The
current time (seconds) and the local clock (ISO weekday, hour, minute) are
parameters. The client's Fahrenheit-to-Celsius conversion is a parameter
`fahToCent` on temperatures in tenths of a degree.

Behaviour of the code that the model keeps as written:

- A write (mode, temperature, settings) is not inside a `try`. A transport
  error, or a reply that is not a dict, escapes as an exception (`Threw`)
  instead of being reported as "no result". This also applies to the
  `old_data.get` on a failed settings read.
- A login or room-data reply with a status that is not ok leaves the
  session as it was. The session ends on an exception, or on an ok login
  reply whose body is falsy (JSON null, `{}`, `""`), which becomes the
  session as it is.
- An ok room list is timed before its body is decoded. A body that is not
  JSON therefore ends the session but keeps the new refresh time, so a
  lookup within the next 120 seconds does not refresh again.
- Apart from the mark lookup, which catches every exception, a poll catches
  only `ValueError`. A temperature or mode that is absent or
  null raises `TypeError`, which escapes `update` and keeps the readings
  already taken.
- An empty room list sets the directory to an empty dict, ends the session
  and forgets the refresh time (`_lastupdate = None`). With no refresh time,
  the next lookup calls `rooms` whatever the time, and `rooms` logs in
  because there is no session.

## Model

| member | source | states |
|---|---|---|
| Text.LowerIdempotent | custom_components/besmart/climate.py:158 | a name lower-cased once is unchanged by lower-casing it again, so directory keys are their own lookup keys |
| Text.SameIgnoringCaseIff | custom_components/besmart/climate.py:219 | two names have the same lower-case form exactly when they differ only in letter case |
| Text.LowerOfUpper | custom_components/besmart/climate.py:219 | lower-casing the upper-case spelling of a name gives the name's lower-case form |
| Text.JoinSplit | custom_components/besmart/climate.py:260 | joining the parts of `split(".")` with "." gives back the text |
| Text.SplitJoin | custom_components/besmart/climate.py:260 | splitting parts joined with "." gives back the parts when no part holds a point |
| Text.SplitPair | custom_components/besmart/climate.py:260 | unpacking `split(".")` into two names succeeds exactly when the text holds one point; the two parts hold no point and rejoin into the text |
| Tenths.TenthsSplit | custom_components/besmart/climate.py:256-260 | the text of a temperature rounded to tenths splits at its point into the whole degrees and the tenth digit |
| Text.ParseIntOfString | custom_components/besmart/climate.py:478 | `int(str(i)) == i` for every integer |
| Tenths.ParseTenths | custom_components/besmart/climate.py:459 | `float` of the text of a temperature in tenths gives that temperature |
| Json.GetOr | custom_components/besmart/climate.py:436 | `.get` gives a value exactly on a dict; on anything else it raises |
| Json.FloatOfTenths | custom_components/besmart/climate.py:458-473 | `float` reads the text of a temperature in tenths back as that temperature |
| Json.IntOfDecimal | custom_components/besmart/climate.py:477-478 | `int` reads a decimal text, or a JSON integer, back as that integer |
| Payload.SentinelsExclusive | custom_components/besmart/climate.py:238 | a reply that confirms a write (`error == 1`) never confirms a read (`error == 0`), and the other way round |
| Payload.TempFields | custom_components/besmart/climate.py:259-262 | the two setpoint fields exist exactly when the unit can be looked up in a set; they are the whole degrees and the tenth digit of the setpoint, unconverted for "N/A" and "0" and converted otherwise, and they rejoin into its text |
| Payload.TempFieldsExample | custom_components/besmart/climate.py:259-266 | 21.3 degrees in a Celsius room is sent as "21" and "3" |
| Payload.BuildSettings | custom_components/besmart/climate.py:312-335 | the settings body is built exactly when the three decimal settings each split at one point; it keeps the device, the room and the season asked for |
| Payload.SplitSettingRejoins | custom_components/besmart/climate.py:313-321 | a setting that splits is a string, and its two parts rejoin into it |
| Payload.OnlySeasonChanges | custom_components/besmart/climate.py:313-335 | the settings body keeps every copied setting as it was (or at its default when absent) and changes only the season |
| Payload.NumericSettingRaises | custom_components/besmart/climate.py:313-315 | a setpoint setting held as a JSON integer cannot be split, so the settings write raises |
| Session.DirectoryOf | custom_components/besmart/climate.py:156-160 | the directory is built exactly when no entry raises; its keys are exactly the lower-cased names of the entries with an id; each key holds an entry filed under it |
| SessionFacts.DirectoryIsLastFiled | custom_components/besmart/climate.py:156-160 | looking a key up in the directory finds the last room-list entry filed under that key, and nothing when there is none |
| SessionFacts.DirectoryKeysAreFolded | custom_components/besmart/climate.py:156-160 | every directory key is already lower-case |
| SessionFacts.RoomByNameIgnoresCase | custom_components/besmart/climate.py:211-220 | names that differ only in case give the same lookup, the same exchanges and the same state |
| SessionFacts.RoomByNameUpperCase | custom_components/besmart/climate.py:219 | the upper-case spelling of a name resolves as the name does |
| SessionFacts.LoginFacts | custom_components/besmart/climate.py:132-143 | login sends one login request and keeps the directory; an ok reply becomes the session, a status that is not ok keeps the session as it was, and an exception, in the post or in decoding its body, ends it |
| SessionFacts.RoomsFacts | custom_components/besmart/climate.py:145-174 | the room-list refresh only reads and logs in first when there is no session; if still without one it sends nothing more; a session that is not a dict ends; otherwise it sends one room-list request for the session's `deviceId`, and then: an exception in the post ends the session, a status that is not ok changes nothing, a body that is not JSON or a list that cannot be filed is timed `now` and ends the session, an empty list ends it and forgets the time, and any other list is stored, timed `now` and returned |
| SessionFacts.RoomDataFacts | custom_components/besmart/climate.py:176-195 | a room-data fetch always logs in first and only reads; without a session it sends nothing more; a room or session that is not a dict ends the session; otherwise it requests the room's `therId` under the session's `deviceId`, and returns the ok body, Null on a status that is not ok, and Null with the session ended on an exception |
| SessionFacts.EmptyRoomListEndsSession | custom_components/besmart/climate.py:163-167 | an empty room list, whether the session was live or was just logged in, ends the session, forgets the refresh time, leaves an empty directory and returns nothing |
| SessionFacts.EmptyRoomListForcesLogin | custom_components/besmart/climate.py:145-167 | after an empty room list, whether the session was live or was just logged in, the next refresh and the next lookup, whatever the time, log in before anything else |
| SessionFacts.RoomByNameOnlyReads | custom_components/besmart/climate.py:211-220 | a room lookup keeps the earlier exchanges and adds only login, room-list and room-data requests |
| SessionFacts.FreshDirectoryReused | custom_components/besmart/climate.py:212-216 | while the directory is at most 120 seconds old, no room list is requested and the directory and its time do not change |
| SessionFacts.StaleDirectoryRefreshed | custom_components/besmart/climate.py:212-216 | a stale directory is refreshed first: a room-list request for the session's device, or a login when there is no session |
| SessionFacts.RoomByNameReturnsRoomData | custom_components/besmart/climate.py:176-195 | a truthy lookup result is the ok body of a room-data request for the directory record of the lower-cased name, in a live session |
| SessionFacts.NoRoomNoWrite | custom_components/besmart/climate.py:222-226 | when the lookup finds no room, the mode, temperature and settings calls send nothing more and return no result |
| SessionFacts.ModeWriteConfirmedByOne | custom_components/besmart/climate.py:222-241 | for a room found in a live session the mode write posts exactly one mode request carrying the session's `deviceId`, the room's `roomMark` and the mode (a room that is not a dict raises); it reports success exactly when it posted the mode asked for and the reply's `error` is 1 |
| SessionFacts.TempWriteSendsSetpoint | custom_components/besmart/climate.py:252-285 | for a room found in a live session with a truthy `deviceId`, a temperature write posts exactly one request to the endpoint given, with the room's setpoint text split at its point (unconverted for "N/A" and "0"); a falsy `deviceId` sends nothing, a room that is not a dict or a unit that cannot be hashed raises; it reports success exactly when the reply's `error` is 1 |
| SessionFacts.TempWriteOnlyTo | custom_components/besmart/climate.py:243-285 | a temperature write adds only reads and writes to the endpoint it was given |
| SessionFacts.GetSettingsFacts | custom_components/besmart/climate.py:287-305 | a settings read only reads before its last request, and returns a reply exactly when that request is the settings read answered with `error == 0`, the reply being that answer |
| SessionFacts.GetSettingsPosts | custom_components/besmart/climate.py:287-298 | for a room found in a live session the settings read posts exactly one request carrying the session's `deviceId` and the room's `roomMark`; a room that is not a dict raises |
| SessionFacts.WriteSettingsPosts | custom_components/besmart/climate.py:312-339 | after the settings read, a read that is not a dict raises, one whose `error` is not 0 gives None and sends nothing, and a confirmed read is posted back as exactly one settings request built from its settings, the device and the room, unless the settings do not split, which raises |
| SessionFacts.SetSettingsPosts | custom_components/besmart/climate.py:307-339 | for a room found in a live session whose settings read is confirmed with `error == 0`, `setSettings` adds exactly one settings post after the read, carrying the read's settings with the season replaced and the first lookup's `roomMark`, unless the settings do not split, which raises |
| SessionFacts.WriteSettingsFacts | custom_components/besmart/climate.py:312-345 | the second half of a settings write sends at most the write, and only after a confirmed read, carrying that read's settings with only the season changed |
| SessionFacts.SettingsWriteConfirmedByZero | custom_components/besmart/climate.py:307-345 | a settings write returns a result exactly when its last exchange is the settings post answered with `error == 0`, and the result is that answer; a post answered with `error == 1` returns None |
| SessionFacts.SettingsWriteKeepsPrevious | custom_components/besmart/climate.py:307-345 | every exchange a settings write adds is a read, except one settings read among the last two and at most one settings post, which comes last, right after that read confirmed with `error == 0`, and carries every copied setting of that read with only the season replaced |
| Client.Besmart.constructor | custom_components/besmart/climate.py:116-124 | a new client has no session, no directory and no refresh time |
| Client.Besmart.Login | custom_components/besmart/climate.py:132-143 | updates the session in place as `Session.Login` |
| Client.Besmart.Rooms | custom_components/besmart/climate.py:145-174 | updates the session, directory and refresh time in place and returns the directory as `Session.Rooms` |
| Client.Besmart.RoomData | custom_components/besmart/climate.py:176-195 | logs in and fetches the room's data in place as `Session.RoomData` |
| Client.Besmart.RoomByName | custom_components/besmart/climate.py:211-220 | refreshes a stale directory and fetches the named room in place as `Session.RoomByName` |
| Client.Besmart.SetRoomMode | custom_components/besmart/climate.py:222-241 | performs the mode write in place as `Session.SetRoomMode` |
| Client.Besmart.SetRoomTemp | custom_components/besmart/climate.py:252-285 | performs the temperature write in place as `Session.SetRoomTemp` |
| Client.Besmart.GetSettings | custom_components/besmart/climate.py:287-305 | performs the settings read in place as `Session.GetSettings` |
| Client.Besmart.SetSettings | custom_components/besmart/climate.py:307-345 | performs the settings read-modify-write in place as `Session.SetSettings` |
| Schedule.Day | custom_components/besmart/climate.py:438-439 | the program day of a valid clock is between 0 and 6; Sunday is 0 and every other weekday keeps its ISO number |
| Schedule.SlotOfClock | custom_components/besmart/climate.py:440-443 | a valid clock falls in one of 48 slots, two per hour, the second one from minute 31 on |
| Schedule.SlotIsHalfHours | custom_components/besmart/climate.py:440-443 | the slot is the number of whole half hours since midnight, except at minute 30, which counts in the hour's first slot |
| Schedule.MarkOfWellFormed | custom_components/besmart/climate.py:437-448 | with a program of seven days of 48 slots, the mark is the entry of the current day and slot |
| Schedule.MarkFallback | custom_components/besmart/climate.py:444-451 | the mark is `programWeek[day][slot]` when that entry can be taken, and "2" whenever it cannot: no program, a program that is null or neither a list nor a string or too short for the day, a day entry that is neither a list nor a string or too short for the slot |
| Views.PresetName | custom_components/besmart/climate.py:544-547 | the preset shown is one of the five presets: the one for a known work mode, "IDLE" for any other |
| Views.PresetMode | custom_components/besmart/climate.py:555-558 | the work mode asked for by a known preset is the one it names; any other preset asks for AUTO |
| Views.PresetRoundTrip | custom_components/besmart/climate.py:361-376 | the two preset tables are inverse on the five work modes and the five presets |
| Views.SeasonRoundTrip | custom_components/besmart/climate.py:379-382 | heating and cooling written as a season read back as themselves, any other mode reads back as none, and a season that shows a mode is the one that mode writes |
| Views.ShownModeIsSeason | custom_components/besmart/climate.py:516-518 | the mode shown is heating or cooling exactly for the season that mode writes; any other hashable season shows none, and a list or dict raises |
| Views.HvacActionOf | custom_components/besmart/climate.py:521-530 | the action is off exactly when not heating; heating exactly when heating with season "1"; cooling when heating with any other hashable season |
| Views.ShownAndSentUnits | custom_components/besmart/climate.py:503-508 | an "N/A" room shows Fahrenheit yet its setpoints are sent unconverted; every room shown in Celsius is written unconverted |
| Climate.UnconfirmedKeepsReadings | custom_components/besmart/climate.py:436 | room data that is not a dict with `error == 0` leaves every reading unchanged; it raises exactly when it is a truthy value that is not a dict |
| Climate.ConfirmedTakesAll | custom_components/besmart/climate.py:436-482 | confirmed data with typed readings is taken whole: the mark, the setpoints or their defaults, heating exactly for "1", the work mode (or a zeroed temperature when it does not parse), the unit and the season, with nothing raised |
| Climate.BadModeZeroesTemperature | custom_components/besmart/climate.py:477-480 | a work mode that `int` cannot parse keeps the old work mode and sets the current temperature to 0 |
| Climate.BatteryIsTruthiness | custom_components/besmart/climate.py:453-456 | the battery reading is the truthiness of `bat`, so an absent battery or the string "0" reads as true |
| Climate.MissingFrostStopsPoll | custom_components/besmart/climate.py:458-461 | an absent or null frost setpoint raises after the mark and the battery are taken, and keeps every other reading |
| Climate.ReadsTenthsBack | custom_components/besmart/climate.py:458-480 | setpoints and temperature sent as decimal text with one decimal, and a work mode sent as an integer, are read back exactly |
| Climate.WriteIfGivenOnlyTo | custom_components/besmart/climate.py:573-579 | a setpoint that is absent or zero sends nothing; otherwise only reads and writes to its endpoint are added |
| Climate.SetTemperaturesEndpoints | custom_components/besmart/climate.py:562-579 | setting temperatures writes only comfort and economy setpoints, economy only for a low setpoint, and nothing when every setpoint is absent or zero |
| Climate.Thermostat.constructor | custom_components/besmart/climate.py:384-400 | a new thermostat starts from the initial readings and polls its room once |
| Climate.Thermostat.Update | custom_components/besmart/climate.py:431-482 | looks the room up and updates the readings in place as `Climate.Refresh`, reporting an escaping exception |
| Climate.Thermostat.SetPresetMode | custom_components/besmart/climate.py:555-560 | writes the preset's work mode as `Session.SetRoomMode` |
| Climate.Thermostat.SetHvacMode | custom_components/besmart/climate.py:537-541 | writes the season the mode asks for as `Session.SetSettings` |
| Climate.Thermostat.SetTemperature | custom_components/besmart/climate.py:562-579 | writes the given setpoints in order as `Climate.SetTemperatures` |

## Left out

- HTTP, the `requests` session, URLs, credentials and timeouts are not modelled. Each exchange is a request and the reply taken from `inbox`.
- Logging is not modelled.
- `setup_platform` is not modelled. It builds the client from the configuration, calls `rooms` once and registers one thermostat; those calls are modelled on their own.
- Home Assistant glue is not modelled: `name`, `should_poll`, `supported_features`, `device_state_attributes`, `hvac_modes`, `preset_modes`, `target_temperature_step` and the target and current temperature properties. These only return constants, fields, or a dict of fields.
- `program` (the weekly program fetch) is not modelled. Nothing in the client or the thermostat calls it.
- `_fahToCent` and `_centToFah` are floating-point arithmetic with rounding. The conversion is the parameter `fahToCent` on tenths of a degree, and `_centToFah` is never called.
- JSON numbers with a fraction, exponent or infinity are not modelled; `Num` holds integers. `float` and `int` on text accept only an optional sign, digits and (for `float`) one point. Whitespace, underscores, "nan", "inf" and exponents are left out.
- `str` of a list or dict is not modelled. A settings field holding one is treated as raising.
- `str.lower` folds ASCII letters only. Unicode case mapping is left out.
- Time is one integer `now` (seconds) per top-level call, and one clock per poll. In the code, `setSettings` reads the time again in its second lookup, and `update` reads `datetime.today()` three times.
- The setpoint argument of the temperature writes is already rounded to tenths. Python's float `round` (which rounds half to even on the binary value), the truthiness of a float that rounds to 0, the text "-0.0" and the exponent form `str` uses for very large values are left out.
- Climate.Thermostat.constructor: an exception escaping the first poll aborts construction in Python; the model keeps the object with the readings taken before the exception.
- `_current_operation` is set in the constructor and never read, so it is not modelled.
- `del data["programWeek"]` changes only the local reply dict, which nothing reads afterwards, so it is not modelled.
- The result of `setRoomMode` and `setRoomTemp` is `True` or `None`; the model writes `Returned(true)` and `Returned(false)`.

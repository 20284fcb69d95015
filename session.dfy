/**
 * The Besmart cloud client as a state machine over values: the session
 * (the login reply), the room directory with the time of its last refresh,
 * and the exchanges with the cloud. Each function here is one operation of
 * the client, taking the state before and giving the state after and the
 * result; the class Client.Besmart performs the same steps in place.
 *
 * The cloud is an input: `inbox` holds the replies it gives to the next
 * requests, in order, and each request the client sends is logged with the
 * reply it took.
 */
module Session {
  import opened Wrappers
  import opened Json
  import opened Text
  import opened Payload

  /**
   * What one HTTP exchange gave back: `resp.ok` with the decoded body, a
   * status that is not ok, an ok status whose body is not JSON (so
   * `resp.json()` raises), or an exception from the post itself (connection
   * error, timeout).
   */
  datatype Reply = Ok(body: Value) | NotOk | Undecodable | Raised

  /** The reply makes the client raise where it reads it: the post failed or its body does not decode. */
  predicate Fails(reply: Reply) {
    reply == Raised || reply == Undecodable
  }

  /** The requests the client sends; the credentials in a login are opaque. */
  datatype Request =
    | LoginReq
    | RoomListReq(deviceId: Value)
    | RoomDataReq(therId: Value, deviceId: Value)
    | SetModeReq(mode: ModePayload)
    | SetTempReq(endpoint: TempEndpoint, temp: TempPayload)
    | GetSettingsReq(deviceId: Value, therId: Value)
    | SetSettingsReq(settings: SettingsPayload)

  datatype Exchange = Exchange(request: Request, reply: Reply)

  /**
   * `device` is the login reply (Null when there is no session), `rooms` the
   * directory from lower-cased room name to room record, `lastupdate` the
   * time in seconds of its last refresh.
   */
  datatype State = State(
    device: Value,
    rooms: Option<map<string, Value>>,
    lastupdate: Option<int>,
    log: seq<Exchange>,
    inbox: seq<Reply>)

  /** The directory is refreshed when it is older than this many seconds. */
  const REFRESH_SECONDS := 120

  /** The reply the cloud gives to the `j`-th next request: a request with no reply left times out. */
  function NextReply(inbox: seq<Reply>, j: nat): Reply {
    if j < |inbox| then inbox[j] else Raised
  }

  function Drop(inbox: seq<Reply>, n: nat): seq<Reply> {
    if n <= |inbox| then inbox[n..] else []
  }

  /** Sends `req` and takes the next reply. */
  function Send(s: State, req: Request): (State, Reply) {
    var reply := NextReply(s.inbox, 0);
    (s.(log := s.log + [Exchange(req, reply)], inbox := Drop(s.inbox, 1)), reply)
  }

  // ---------------------------------------------------------------------------
  // Login and the room directory
  // ---------------------------------------------------------------------------

  /** `login`: an ok reply becomes the session, an exception ends it, any other status leaves it. */
  function Login(s: State): State {
    var (t, reply) := Send(s, LoginReq);
    match reply
    case Ok(body) => t.(device := body)
    case NotOk => t
    case Undecodable => t.(device := Null)
    case Raised => t.(device := Null)
  }

  /** How the directory treats one entry of the room list. */
  datatype Entry = Skipped | Keyed(key: string) | Malformed

  /**
   * An entry whose `id` is null or absent is skipped; any other is filed
   * under its lower-cased `name`, which must be a string. Anything else
   * makes the directory construction raise.
   */
  function Classify(item: Value): Entry {
    match item
    case Obj(fields) =>
      if FieldOr(fields, "id", Null) == Null then Skipped
      else (match FieldOr(fields, "name", Null)
            case Str(name) => Keyed(Lower(name))
            case _ => Malformed)
    case _ => Malformed
  }

  /**
   * The directory built from a list of room entries, later entries replacing
   * earlier ones under the same key; None when an entry makes it raise.
   */
  function DirectoryOf(items: seq<Value>): (r: Option<map<string, Value>>)
    ensures r.Some? <==> forall i :: 0 <= i < |items| ==> !Classify(items[i]).Malformed?
    ensures r.Some? ==> forall k :: k in r.value <==> exists i :: 0 <= i < |items| && Classify(items[i]) == Keyed(k)
    ensures r.Some? ==> forall k :: k in r.value ==> Classify(r.value[k]) == Keyed(k)
  {
    if items == [] then Some(map[])
    else
      var prefix := items[..|items| - 1];
      var last := items[|items| - 1];
      assert items == prefix + [last];
      match DirectoryOf(prefix)
      case None => None
      case Some(m) =>
        match Classify(last)
        case Malformed => None
        case Skipped => DirectoryStep(prefix, m, last); Some(m)
        case Keyed(k) => DirectoryStep(prefix, m, last); Some(m[k := last])
  }

  /** Filing one more well-formed entry keeps the directory's keys those of the entries, each under its own key. */
  lemma {:induction false} DirectoryStep(prefix: seq<Value>, m: map<string, Value>, last: Value)
    requires forall k :: k in m <==> exists i :: 0 <= i < |prefix| && Classify(prefix[i]) == Keyed(k)
    requires forall k :: k in m ==> Classify(m[k]) == Keyed(k)
    requires !Classify(last).Malformed?
    ensures var m' := if Classify(last).Keyed? then m[Classify(last).key := last] else m;
      var items := prefix + [last];
      (forall k :: k in m' <==> exists i :: 0 <= i < |items| && Classify(items[i]) == Keyed(k))
      && (forall k :: k in m' ==> Classify(m'[k]) == Keyed(k))
  {
    var m' := if Classify(last).Keyed? then m[Classify(last).key := last] else m;
    var items := prefix + [last];
    forall k ensures k in m' <==> exists i :: 0 <= i < |items| && Classify(items[i]) == Keyed(k) {
      if k in m' {
        if Classify(last) == Keyed(k) {
          assert Classify(items[|prefix|]) == Keyed(k);
        } else {
          var i :| 0 <= i < |prefix| && Classify(prefix[i]) == Keyed(k);
          assert items[i] == prefix[i];
        }
      } else {
        forall i | 0 <= i < |items| ensures Classify(items[i]) != Keyed(k) {
          if i < |prefix| {
            assert items[i] == prefix[i];
          }
        }
      }
    }
  }

  /** The directory built from a room-list reply body; None where building it raises. */
  function Directory(body: Value): Option<map<string, Value>> {
    match body
    case Arr(items) => DirectoryOf(items)
    case Obj(fields) => if fields == map[] then Some(map[]) else None
    case Str(text) => if text == [] then Some(map[]) else None
    case _ => None
  }

  /**
   * `rooms`: log in when there is no session, fetch the room list and build
   * the directory. An empty directory ends the session and forgets the
   * refresh time; a failed fetch or an exception ends the session.
   */
  function Rooms(s: State, now: int): (State, Option<map<string, Value>>) {
    var s1 := LoggedIn(s);
    if !Truthy(s1.device) then (s1, None)
    else
      match Get(s1.device, "deviceId")
      case None => (s1.(device := Null), None)
      case Some(deviceId) =>
        var (s2, reply) := Send(s1, RoomListReq(deviceId));
        match reply
        case Raised => (s2.(device := Null), None)
        case Undecodable => (s2.(lastupdate := Some(now), device := Null), None)
        case NotOk => (s2, None)
        case Ok(body) => FileRooms(s2, body, now)
  }

  /**
   * The part of `rooms` after an ok room-list reply: note the refresh time
   * and build the directory from the reply's body.
   */
  function FileRooms(s: State, body: Value, now: int): (State, Option<map<string, Value>>) {
    var s1 := s.(lastupdate := Some(now));
    match Directory(body)
    case None => (s1.(device := Null), None)
    case Some(m) =>
      if m == map[] then (s1.(rooms := Some(m), device := Null, lastupdate := None), None)
      else (s1.(rooms := Some(m)), Some(m))
  }

  /** The state `rooms` goes on from: the session as it is, after a login when there is none. */
  function LoggedIn(s: State): State {
    if Truthy(s.device) then s else Login(s)
  }

  /** `roomdata`: log in again, then fetch the room's data; an exception ends the session. */
  function RoomData(s: State, room: Value): (State, Value) {
    var s1 := Login(s);
    if !Truthy(s1.device) then (s1, Null)
    else
      match (Get(room, "therId"), Get(s1.device, "deviceId"))
      case (Some(therId), Some(deviceId)) =>
        var (s2, reply) := Send(s1, RoomDataReq(therId, deviceId));
        (match reply
         case Ok(body) => (s2, body)
         case NotOk => (s2, Null)
         case Undecodable => (s2.(device := Null), Null)
         case Raised => (s2.(device := Null), Null))
      case _ => (s1.(device := Null), Null)
  }

  /** The directory needs a refresh: it was never built, or is more than REFRESH_SECONDS old. */
  predicate Stale(lastupdate: Option<int>, now: int) {
    lastupdate.None? || now - lastupdate.value > REFRESH_SECONDS
  }

  /**
   * `roomByName`: refresh a stale directory, look the lower-cased name up in
   * it and return the room's data (not its directory record).
   */
  function RoomByName(s: State, name: string, now: int): (State, Value) {
    var s1 := if Stale(s.lastupdate, now) then Rooms(s, now).0 else s;
    if s1.rooms.Some? && s1.rooms.value != map[] then
      RoomData(s1, FieldOr(s1.rooms.value, Lower(name), Null))
    else (s1, Null)
  }

  // ---------------------------------------------------------------------------
  // Writes
  // ---------------------------------------------------------------------------

  /**
   * The end of a write whose request is not guarded: true when the reply
   * carries the sentinel `code`; an exception, or a reply that is not a
   * dict, escapes.
   */
  function Confirmed(reply: Reply, code: int): Outcome<bool> {
    match reply
    case Raised => Threw
    case Undecodable => Threw
    case NotOk => Returned(false)
    case Ok(msg) =>
      (match ErrorIs(msg, code)
       case None => Threw
       case Some(ok) => Returned(ok))
  }

  /** As Confirmed, returning the reply itself on success and Null otherwise. */
  function ConfirmedBody(reply: Reply, code: int): Outcome<Value> {
    match Confirmed(reply, code)
    case Threw => Threw
    case Returned(ok) => Returned(if ok then reply.body else Null)
  }

  /** `setRoomMode`: post the mode for the room; true only when the reply's `error` is 1. */
  function SetRoomMode(s: State, name: string, mode: int, now: int): (State, Outcome<bool>) {
    var (s1, room) := RoomByName(s, name, now);
    if !(Truthy(s1.device) && Truthy(room)) then (s1, Returned(false))
    else
      match (Get(s1.device, "deviceId"), Get(room, "roomMark"))
      case (Some(deviceId), Some(therId)) =>
        var (s2, reply) := Send(s1, SetModeReq(ModePayload(deviceId, therId, mode)));
        (s2, Confirmed(reply, WRITE_CONFIRMED))
      case _ => (s1, Threw)
  }

  /**
   * `setRoomTemp`: post a setpoint of `tenths` tenths of a degree to
   * `endpoint`, split at its decimal point; `fahToCent` stands for the
   * client's floating-point conversion, used when the room's unit is neither
   * "N/A" nor "0". True only when the reply's `error` is 1.
   */
  function SetRoomTemp(s: State, name: string, tenths: int, endpoint: TempEndpoint, fahToCent: int -> int, now: int)
    : (State, Outcome<bool>)
  {
    var (s1, room) := RoomByName(s, name, now);
    if !Truthy(room) then (s1, Returned(false))
    else
      match Get(s1.device, "deviceId")
      case None => (s1, Threw)
      case Some(deviceId) =>
        if !Truthy(deviceId) then (s1, Returned(false))
        else if !room.Obj? then (s1, Threw)
        else
          match TempFields(FieldOr(room.fields, "tempUnit", Null), tenths, fahToCent)
          case None => (s1, Threw)
          case Some(fields) =>
            var payload := TempPayload(deviceId, FieldOr(room.fields, "roomMark", Null), fields.0, fields.1);
            var (s2, reply) := Send(s1, SetTempReq(endpoint, payload));
            (s2, Confirmed(reply, WRITE_CONFIRMED))
  }

  /** `getSettings`: fetch the room's settings; the reply when its `error` is 0, else Null. */
  function GetSettings(s: State, name: string, now: int): (State, Outcome<Value>) {
    var (s1, room) := RoomByName(s, name, now);
    ReadSettings(s1, room)
  }

  /** `getSettings` once the room has been looked up: nothing without a session and a room. */
  function ReadSettings(s: State, room: Value): (State, Outcome<Value>) {
    if !(Truthy(s.device) && Truthy(room)) then (s, Returned(Null))
    else
      match (Get(s.device, "deviceId"), Get(room, "roomMark"))
      case (Some(deviceId), Some(therId)) =>
        var (t, reply) := Send(s, GetSettingsReq(deviceId, therId));
        (t, ConfirmedBody(reply, READ_CONFIRMED))
      case _ => (s, Threw)
  }

  /**
   * `setSettings`: read the settings, then post them back with only the
   * season replaced; the reply when its `error` is 0, else Null.
   */
  function SetSettings(s: State, name: string, season: Value, now: int): (State, Outcome<Value>) {
    var (s1, room) := RoomByName(s, name, now);
    SettingsFor(s1, room, name, season, now)
  }

  /** `setSettings` once the room has been looked up: nothing without a session and a room. */
  function SettingsFor(s: State, room: Value, name: string, season: Value, now: int): (State, Outcome<Value>) {
    if !(Truthy(s.device) && Truthy(room)) then (s, Returned(Null))
    else
      var (t, got) := GetSettings(s, name, now);
      WriteSettings(t, room, got, season)
  }

  /**
   * The second half of `setSettings`, once the settings read `got` is in: a
   * read that gave None makes the `.get` on it raise; a confirmed read is
   * posted back with the season replaced.
   */
  function WriteSettings(s: State, room: Value, got: Outcome<Value>, season: Value): (State, Outcome<Value>) {
    match got
    case Threw => (s, Threw)
    case Returned(previous) =>
      match ErrorIs(previous, READ_CONFIRMED)
      case None => (s, Threw)
      case Some(ok) =>
        if !ok then (s, Returned(Null))
        else
          match (Get(s.device, "deviceId"), Get(room, "roomMark"))
          case (Some(deviceId), Some(therId)) =>
            (match BuildSettings(deviceId, therId, previous.fields, season)
             case None => (s, Threw)
             case Some(p) => PostSettings(s, p))
          case _ => (s, Threw)
  }

  /** The settings post: the reply when its `error` is 0, else Null. */
  function PostSettings(s: State, p: SettingsPayload): (State, Outcome<Value>) {
    var (t, reply) := Send(s, SetSettingsReq(p));
    (t, ConfirmedBody(reply, READ_CONFIRMED))
  }
}

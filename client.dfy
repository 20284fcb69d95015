/**
 * The Besmart cloud client as the object the integration holds: its session,
 * room directory and refresh time are fields that each call updates in
 * place. Every method is proved to do exactly what the corresponding
 * function of module Session says, so the facts proved about those
 * functions hold of the object.
 */
module Client {
  import opened Wrappers
  import opened Json
  import opened Text
  import opened Payload
  import opened Session

  class Besmart {
    /** The login reply; Null when there is no session. */
    var device: Value
    /** Lower-cased room name to room record, once a room list was read. */
    var rooms: Option<map<string, Value>>
    /** Time in seconds of the last room-list refresh. */
    var lastupdate: Option<int>
    /** The exchanges with the cloud so far. */
    var log: seq<Exchange>
    /** The replies the cloud gives to the next requests. */
    var inbox: seq<Reply>

    function State(): State
      reads this
    {
      Session.State(device, rooms, lastupdate, log, inbox)
    }

    /** A new client: no session, no directory, nothing sent yet. */
    constructor(replies: seq<Reply>)
      ensures State() == Session.State(Null, None, None, [], replies)
    {
      device := Null;
      rooms := None;
      lastupdate := None;
      log := [];
      inbox := replies;
    }

    /** One request to the cloud and the reply it gets. */
    method Send(req: Request) returns (reply: Reply)
      modifies this
      ensures (State(), reply) == Session.Send(old(State()), req)
    {
      reply := if inbox == [] then Raised else inbox[0];
      log := log + [Exchange(req, reply)];
      inbox := if inbox == [] then [] else inbox[1..];
    }

    method Login()
      modifies this
      ensures State() == Session.Login(old(State()))
    {
      var reply := Send(LoginReq);
      match reply
      case Ok(body) => device := body;
      case NotOk =>
      case Undecodable => device := Null;
      case Raised => device := Null;
    }

    method Rooms(now: int) returns (r: Option<map<string, Value>>)
      modifies this
      ensures (State(), r) == Session.Rooms(old(State()), now)
    {
      if !Truthy(device) {
        Login();
      }
      r := None;
      if !Truthy(device) {
        return;
      }
      var deviceId := Get(device, "deviceId");
      if deviceId.None? {
        device := Null;
        return;
      }
      var reply := Send(RoomListReq(deviceId.value));
      match reply {
        case Raised =>
          device := Null;
        case Undecodable =>
          lastupdate := Some(now);
          device := Null;
        case NotOk =>
        case Ok(body) =>
          lastupdate := Some(now);
          var m := Directory(body);
          if m.None? {
            device := Null;
          } else {
            rooms := m;
            if m.value == map[] {
              device := Null;
              lastupdate := None;
            } else {
              r := m;
            }
          }
      }
    }

    method RoomData(room: Value) returns (v: Value)
      modifies this
      ensures (State(), v) == Session.RoomData(old(State()), room)
    {
      Login();
      v := Null;
      if !Truthy(device) {
        return;
      }
      var therId, deviceId := Get(room, "therId"), Get(device, "deviceId");
      if therId.None? || deviceId.None? {
        device := Null;
        return;
      }
      var reply := Send(RoomDataReq(therId.value, deviceId.value));
      match reply {
        case Ok(body) => v := body;
        case NotOk =>
        case Undecodable => device := Null;
        case Raised => device := Null;
      }
    }

    method RoomByName(name: string, now: int) returns (v: Value)
      modifies this
      ensures (State(), v) == Session.RoomByName(old(State()), name, now)
    {
      if Stale(lastupdate, now) {
        var _ := Rooms(now);
      }
      if rooms.Some? && rooms.value != map[] {
        v := RoomData(FieldOr(rooms.value, Lower(name), Null));
      } else {
        v := Null;
      }
    }

    method SetRoomMode(name: string, mode: int, now: int) returns (r: Outcome<bool>)
      modifies this
      ensures (State(), r) == Session.SetRoomMode(old(State()), name, mode, now)
    {
      var room := RoomByName(name, now);
      if !(Truthy(device) && Truthy(room)) {
        return Returned(false);
      }
      var deviceId, therId := Get(device, "deviceId"), Get(room, "roomMark");
      if deviceId.None? || therId.None? {
        return Threw;
      }
      var reply := Send(SetModeReq(ModePayload(deviceId.value, therId.value, mode)));
      r := Confirmed(reply, WRITE_CONFIRMED);
    }

    method SetRoomTemp(name: string, tenths: int, endpoint: TempEndpoint, fahToCent: int -> int, now: int)
      returns (r: Outcome<bool>)
      modifies this
      ensures (State(), r) == Session.SetRoomTemp(old(State()), name, tenths, endpoint, fahToCent, now)
    {
      var room := RoomByName(name, now);
      if !Truthy(room) {
        return Returned(false);
      }
      var deviceId := Get(device, "deviceId");
      if deviceId.None? {
        return Threw;
      }
      if !Truthy(deviceId.value) {
        return Returned(false);
      }
      if !room.Obj? {
        return Threw;
      }
      var fields := TempFields(FieldOr(room.fields, "tempUnit", Null), tenths, fahToCent);
      if fields.None? {
        return Threw;
      }
      var payload := TempPayload(deviceId.value, FieldOr(room.fields, "roomMark", Null), fields.value.0, fields.value.1);
      var reply := Send(SetTempReq(endpoint, payload));
      r := Confirmed(reply, WRITE_CONFIRMED);
    }

    method GetSettings(name: string, now: int) returns (r: Outcome<Value>)
      modifies this
      ensures (State(), r) == Session.GetSettings(old(State()), name, now)
    {
      var room := RoomByName(name, now);
      if !(Truthy(device) && Truthy(room)) {
        return Returned(Null);
      }
      var deviceId, therId := Get(device, "deviceId"), Get(room, "roomMark");
      if deviceId.None? || therId.None? {
        return Threw;
      }
      var reply := Send(GetSettingsReq(deviceId.value, therId.value));
      r := ConfirmedBody(reply, READ_CONFIRMED);
    }

    method SetSettings(name: string, season: Value, now: int) returns (r: Outcome<Value>)
      modifies this
      ensures (State(), r) == Session.SetSettings(old(State()), name, season, now)
    {
      var room := RoomByName(name, now);
      if !(Truthy(device) && Truthy(room)) {
        return Returned(Null);
      }
      var got := GetSettings(name, now);
      if got.Threw? {
        return Threw;
      }
      var confirmed := ErrorIs(got.value, READ_CONFIRMED);
      if confirmed.None? {
        return Threw;
      }
      if !confirmed.value {
        return Returned(Null);
      }
      var deviceId, therId := Get(device, "deviceId"), Get(room, "roomMark");
      if deviceId.None? || therId.None? {
        return Threw;
      }
      var p := BuildSettings(deviceId.value, therId.value, got.value.fields, season);
      if p.None? {
        return Threw;
      }
      var reply := Send(SetSettingsReq(p.value));
      r := ConfirmedBody(reply, READ_CONFIRMED);
    }
  }
}

/**
 * What the client's state machine guarantees: the shape of the room
 * directory, case-insensitive lookup, the session ending on failures and
 * an empty directory, the 120-second refresh rule, and the success
 * sentinels and bodies of the writes.
 */
module SessionFacts {
  import opened Wrappers
  import opened Json
  import opened Text
  import opened Tenths
  import opened Payload
  import opened Session

  // ---------------------------------------------------------------------------
  // The directory
  // ---------------------------------------------------------------------------

  /** `m.get(k)` as an option. */
  function Find(m: map<string, Value>, k: string): Option<Value> {
    if k in m then Some(m[k]) else None
  }

  /** The last entry of a room list filed under key `k`: a reading of the directory by scanning the list. */
  function LastFiled(items: seq<Value>, k: string): Option<Value> {
    if items == [] then None
    else if Classify(items[|items| - 1]) == Keyed(k) then Some(items[|items| - 1])
    else LastFiled(items[..|items| - 1], k)
  }

  /** Looking a key up in the directory finds the last room-list entry filed under it, and nothing else. */
  lemma {:induction false} DirectoryIsLastFiled(items: seq<Value>, k: string)
    requires DirectoryOf(items).Some?
    ensures Find(DirectoryOf(items).value, k) == LastFiled(items, k)
  {
    if items != [] {
      var prefix := items[..|items| - 1];
      assert forall i :: 0 <= i < |prefix| ==> prefix[i] == items[i];
      DirectoryIsLastFiled(prefix, k);
    }
  }

  /** Every directory key is a lower-cased name, so it is its own lookup key. */
  lemma DirectoryKeysAreFolded(body: Value)
    requires Directory(body).Some?
    ensures forall k :: k in Directory(body).value ==> Lower(k) == k
  {
    var m := Directory(body).value;
    forall k | k in m ensures Lower(k) == k {
      var name := FieldOr(m[k].fields, "name", Null).s;
      LowerIdempotent(name);
    }
  }

  /** Room names that differ only in case give the same lookup, the same exchanges and the same state. */
  lemma RoomByNameIgnoresCase(s: State, a: string, b: string, now: int)
    requires SameIgnoringCase(a, b)
    ensures RoomByName(s, a, now) == RoomByName(s, b, now)
  {
    SameIgnoringCaseIff(a, b);
  }

  /** The upper-case spelling of a room name resolves as the name does. */
  lemma RoomByNameUpperCase(s: State, name: string, now: int)
    ensures RoomByName(s, Upper(name), now) == RoomByName(s, name, now)
  {
    LowerOfUpper(name);
  }

  // ---------------------------------------------------------------------------
  // The session ends on failure
  // ---------------------------------------------------------------------------

  /** `t` keeps the exchanges of `s` and adds only logins, room-list and room-data requests. */
  ghost predicate OnlyReads(s: State, t: State) {
    |s.log| <= |t.log| && t.log[..|s.log|] == s.log
    && forall j :: |s.log| <= j < |t.log| ==> IsRead(t.log[j].request)
  }

  predicate IsRead(r: Request) {
    r.LoginReq? || r.RoomListReq? || r.RoomDataReq?
  }

  /** Some exchange after those of `s` raised, in the post or in decoding its body. */
  ghost predicate SomeNewRaised(s: State, t: State) {
    exists j :: |s.log| <= j < |t.log| && Fails(t.log[j].reply)
  }

  /**
   * `login` sends one login request and keeps the directory: an ok reply
   * becomes the session, a status that is not ok keeps the session, and an
   * exception (in the post or in decoding an ok body) ends it.
   */
  lemma LoginFacts(s: State)
    ensures var t := Login(s);
      var reply := NextReply(s.inbox, 0);
      OnlyReads(s, t) && |t.log| == |s.log| + 1 && t.log[|s.log|] == Exchange(LoginReq, reply)
      && (reply.Ok? ==> t.device == reply.body)
      && (reply == NotOk ==> t.device == s.device)
      && (Fails(reply) ==> t.device == Null)
      && (SomeNewRaised(s, t) ==> t.device == Null)
      && t.rooms == s.rooms && t.lastupdate == s.lastupdate
  {
    var t := Login(s);
    assert t.log == s.log + [t.log[|s.log|]];
  }

  /** One more read after reads only reads; it adds one exchange, and only that one can be new to raise. */
  lemma {:induction false} ReadStep(s: State, s1: State, req: Request)
    requires OnlyReads(s, s1) && IsRead(req)
    ensures var (t, reply) := Send(s1, req);
      OnlyReads(s, t) && |t.log| == |s1.log| + 1 && t.log[..|s1.log|] == s1.log
      && t.log[|s1.log|] == Exchange(req, reply)
      && (SomeNewRaised(s, t) ==> SomeNewRaised(s, s1) || Fails(reply))
  {
    var (t, reply) := Send(s1, req);
    assert t.log == s1.log + [Exchange(req, reply)];
    if SomeNewRaised(s, t) && !Fails(reply) {
      var j :| |s.log| <= j < |t.log| && Fails(t.log[j].reply);
      assert t.log[j] == s1.log[j];
    }
  }

  /**
   * Filing a room list sends nothing. A list that cannot be filed ends the
   * session yet keeps the new refresh time; an empty one ends the session
   * and forgets the time; any other is kept and returned under the same
   * session.
   */
  lemma FileRoomsFacts(s: State, body: Value, now: int)
    ensures var (t, r) := FileRooms(s, body, now);
      t.log == s.log && t.inbox == s.inbox && (t.device == s.device || t.device == Null)
      && (r.Some? ==> t.rooms == r && r.value != map[] && t.lastupdate == Some(now) && t.device == s.device)
      && (Directory(body).None? ==> t.device == Null && t.lastupdate == Some(now) && t.rooms == s.rooms && r == None)
      && (Directory(body) == Some(map[]) ==> t.device == Null && t.lastupdate == None && t.rooms == Some(map[]) && r == None)
      && (Directory(body).Some? && Directory(body).value != map[] ==> r == Directory(body))
  {
  }

  /**
   * `rooms` only reads; without a session it begins with a login. Once a
   * session is there, an exchange that raises ends it, and so do the
   * code's own errors caught by its `except`: a session that is not a dict
   * (no `.get`) and a room list that cannot be filed. An ok room list is
   * timed before its body is decoded, so one that does not decode ends the
   * session with the refresh time set. A status that is not ok changes
   * nothing more.
   */
  lemma RoomsFacts(s: State, now: int)
    ensures var (t, r) := Rooms(s, now);
      OnlyReads(s, t)
      && (!Truthy(s.device) ==> |t.log| > |s.log| && t.log[|s.log|].request == LoginReq)
      && (SomeNewRaised(s, t) ==> t.device == Null && r == None)
      && (r.Some? ==> t.rooms == r && r.value != map[] && t.lastupdate == Some(now) && Truthy(t.device))
    ensures var (t, r) := Rooms(s, now);
      var s1 := LoggedIn(s);
      var reply := NextReply(s1.inbox, 0);
      (!Truthy(s1.device) ==> t == s1 && r == None)
      && (Truthy(s1.device) && !s1.device.Obj? ==> t == s1.(device := Null) && r == None)
      && (Truthy(s1.device) && s1.device.Obj? ==>
            |t.log| == |s1.log| + 1
            && t.log[|s1.log|] == Exchange(RoomListReq(FieldOr(s1.device.fields, "deviceId", Null)), reply))
      && (Truthy(s1.device) && s1.device.Obj? && reply == NotOk ==>
            t.device == s1.device && t.rooms == s.rooms && t.lastupdate == s.lastupdate && r == None)
      && (Truthy(s1.device) && s1.device.Obj? && reply == Raised ==>
            t.device == Null && t.rooms == s.rooms && t.lastupdate == s.lastupdate && r == None)
      && (Truthy(s1.device) && s1.device.Obj? && reply == Undecodable ==>
            t.device == Null && t.rooms == s.rooms && t.lastupdate == Some(now) && r == None)
      && (Truthy(s1.device) && s1.device.Obj? && reply.Ok? && Directory(reply.body).None? ==>
            t.device == Null && t.lastupdate == Some(now) && t.rooms == s.rooms && r == None)
      && (Truthy(s1.device) && s1.device.Obj? && reply.Ok? && Directory(reply.body) == Some(map[]) ==>
            t.device == Null && t.lastupdate == None && t.rooms == Some(map[]) && r == None)
      && (Truthy(s1.device) && s1.device.Obj? && reply.Ok? && Directory(reply.body).Some?
          && Directory(reply.body).value != map[] ==>
            t.device == s1.device && t.lastupdate == Some(now) && t.rooms == Directory(reply.body)
            && r == Directory(reply.body))
  {
    var s1 := LoggedIn(s);
    LoginFacts(s);
    if Truthy(s1.device) && Get(s1.device, "deviceId").Some? {
      var req := RoomListReq(Get(s1.device, "deviceId").value);
      ReadStep(s, s1, req);
      var (s2, reply) := Send(s1, req);
      if reply.Ok? {
        FileRoomsFacts(s2, reply.body, now);
      }
      if !Truthy(s.device) {
        assert Send(s1, req).0.log[|s.log|] == s1.log[|s.log|];
      }
    }
  }

  /**
   * `roomdata` begins with a login and only reads. Once logged in, an
   * exchange that raises ends the session, and so does a room or a session
   * that is not a dict (`.get` raises), as for a name the directory does not
   * hold; a status that is not ok keeps the session and gives Null.
   */
  lemma RoomDataFacts(s: State, room: Value)
    ensures var (t, v) := RoomData(s, room);
      OnlyReads(s, t) && |t.log| > |s.log| && t.log[|s.log|].request == LoginReq
      && (SomeNewRaised(s, t) ==> t.device == Null && v == Null)
      && t.rooms == s.rooms && t.lastupdate == s.lastupdate
    ensures var (t, v) := RoomData(s, room);
      var s1 := Login(s);
      var reply := NextReply(s1.inbox, 0);
      (!Truthy(s1.device) ==> t == s1 && v == Null)
      && (Truthy(s1.device) && !(room.Obj? && s1.device.Obj?) ==> t == s1.(device := Null) && v == Null)
      && (Truthy(s1.device) && room.Obj? && s1.device.Obj? ==>
            |t.log| == |s1.log| + 1
            && t.log[|s1.log|].request
               == RoomDataReq(FieldOr(room.fields, "therId", Null), FieldOr(s1.device.fields, "deviceId", Null))
            && (reply.Ok? ==> t.device == s1.device && v == reply.body)
            && (reply == NotOk ==> t.device == s1.device && v == Null)
            && (Fails(reply) ==> t.device == Null && v == Null))
  {
    var s1 := Login(s);
    LoginFacts(s);
    if Truthy(s1.device) && Get(room, "therId").Some? && Get(s1.device, "deviceId").Some? {
      var req := RoomDataReq(Get(room, "therId").value, Get(s1.device, "deviceId").value);
      var (s2, reply) := Send(s1, req);
      assert s2.log == s1.log + [Exchange(req, reply)];
      assert s2.log[|s.log|] == s1.log[|s.log|];
      assert Fails(reply) ==> !Fails(s1.log[|s.log|].reply);
    }
  }

  /**
   * An empty room list ends the session and forgets the refresh time;
   * `rooms` returns nothing. This holds in a live session and right after
   * the login `rooms` makes without one.
   */
  lemma EmptyRoomListEndsSession(s: State, now: int, body: Value)
    requires Truthy(LoggedIn(s).device) && LoggedIn(s).device.Obj?
    requires NextReply(LoggedIn(s).inbox, 0) == Ok(body) && Directory(body) == Some(map[])
    ensures var (t, r) := Rooms(s, now);
      r == None && t.device == Null && t.lastupdate == None && t.rooms == Some(map[])
  {
    var s1 := LoggedIn(s);
    var (s2, reply) := Send(s1, RoomListReq(FieldOr(s1.device.fields, "deviceId", Null)));
    FileRoomsFacts(s2, body, now);
  }

  /**
   * After an empty room list, the next `rooms`, and the next `roomByName`
   * whatever the time, log in again before anything else.
   */
  lemma EmptyRoomListForcesLogin(s: State, now: int, body: Value, later: int, name: string)
    requires Truthy(LoggedIn(s).device) && LoggedIn(s).device.Obj?
    requires NextReply(LoggedIn(s).inbox, 0) == Ok(body) && Directory(body) == Some(map[])
    ensures var t := Rooms(s, now).0;
      var u := Rooms(t, later).0;
      var v := RoomByName(t, name, later).0;
      |u.log| > |t.log| && u.log[|t.log|].request == LoginReq
      && |v.log| > |t.log| && v.log[|t.log|].request == LoginReq
  {
    EmptyRoomListEndsSession(s, now, body);
    var t := Rooms(s, now).0;
    RoomsFacts(t, later);
    var t1 := Rooms(t, later).0;
    if t1.rooms.Some? && t1.rooms.value != map[] {
      RoomDataFacts(t1, FieldOr(t1.rooms.value, Lower(name), Null));
      var v := RoomByName(t, name, later).0;
      assert v.log[..|t1.log|] == t1.log;
      assert v.log[|t.log|] == t1.log[|t.log|];
    }
  }

  /**
   * `roomByName` only reads; when an exchange in it raised, the session is
   * over (if that happened in the refresh, the data fetch logged in again
   * first, and its own failure is reported).
   */
  lemma RoomByNameOnlyReads(s: State, name: string, now: int)
    ensures OnlyReads(s, RoomByName(s, name, now).0)
  {
    var s1 := if Stale(s.lastupdate, now) then Rooms(s, now).0 else s;
    RoomsFacts(s, now);
    if s1.rooms.Some? && s1.rooms.value != map[] {
      RoomDataFacts(s1, FieldOr(s1.rooms.value, Lower(name), Null));
      var t := RoomByName(s, name, now).0;
      assert t.log[..|s.log|] == s1.log[..|s.log|];
      forall j | |s.log| <= j < |t.log| ensures IsRead(t.log[j].request) {
        if j < |s1.log| { assert t.log[j] == s1.log[j]; }
      }
    }
  }

  // ---------------------------------------------------------------------------
  // Refresh every 120 seconds
  // ---------------------------------------------------------------------------

  /**
   * While the directory is at most 120 seconds old, `roomByName` uses it as
   * it is: no room list is requested and neither the directory nor its
   * time changes.
   */
  lemma FreshDirectoryReused(s: State, name: string, now: int)
    requires !Stale(s.lastupdate, now)
    ensures var t := RoomByName(s, name, now).0;
      t.rooms == s.rooms && t.lastupdate == s.lastupdate
      && |s.log| <= |t.log| && t.log[..|s.log|] == s.log
      && forall j :: |s.log| <= j < |t.log| ==> !t.log[j].request.RoomListReq?
  {
    if s.rooms.Some? && s.rooms.value != map[] {
      var room := FieldOr(s.rooms.value, Lower(name), Null);
      RoomDataFacts(s, room);
      var s1 := Login(s);
      LoginFacts(s);
      var t := RoomData(s, room).0;
      forall j | |s.log| <= j < |t.log| ensures !t.log[j].request.RoomListReq? {
        if j == |s.log| {
        } else {
          assert j == |s.log| + 1;
        }
      }
    }
  }

  /**
   * A stale directory is refreshed first: with a session the first request
   * is the room list for its device, without one it is a login.
   */
  lemma StaleDirectoryRefreshed(s: State, name: string, now: int)
    requires Stale(s.lastupdate, now)
    ensures var t := RoomByName(s, name, now).0;
      (Truthy(s.device) && s.device.Obj? ==>
         |t.log| > |s.log| && t.log[|s.log|].request == RoomListReq(FieldOr(s.device.fields, "deviceId", Null)))
      && (!Truthy(s.device) ==> |t.log| > |s.log| && t.log[|s.log|].request == LoginReq)
  {
    RoomsFacts(s, now);
    var s1 := Rooms(s, now).0;
    if s1.rooms.Some? && s1.rooms.value != map[] {
      RoomDataFacts(s1, FieldOr(s1.rooms.value, Lower(name), Null));
      var t := RoomByName(s, name, now).0;
      assert t.log[..|s1.log|] == s1.log;
      if |s1.log| > |s.log| {
        assert t.log[|s.log|] == s1.log[|s.log|];
      }
    }
  }

  /** A truthy room-data result is the ok body of the room-data request sent last, in a live session. */
  lemma RoomDataReturnsBody(s: State, room: Value)
    ensures var (t, v) := RoomData(s, room);
      Truthy(v) ==>
        Truthy(t.device) && t.device.Obj? && room.Obj? && t.rooms == s.rooms
        && |t.log| > |s.log|
        && t.log[|t.log| - 1] ==
           Exchange(RoomDataReq(FieldOr(room.fields, "therId", Null), FieldOr(t.device.fields, "deviceId", Null)), Ok(v))
  {
    var l := Login(s);
    LoginFacts(s);
  }

  /**
   * A truthy result of `roomByName` is the body of the room-data reply for
   * the directory record of the lower-cased name, fetched in a live session.
   */
  lemma RoomByNameReturnsRoomData(s: State, name: string, now: int)
    ensures var (t, v) := RoomByName(s, name, now);
      Truthy(v) ==>
        Truthy(t.device) && t.device.Obj?
        && t.rooms.Some? && Lower(name) in t.rooms.value && t.rooms.value[Lower(name)].Obj?
        && |t.log| > |s.log|
        && t.log[|t.log| - 1] ==
           Exchange(RoomDataReq(FieldOr(t.rooms.value[Lower(name)].fields, "therId", Null),
                                FieldOr(t.device.fields, "deviceId", Null)),
                    Ok(v))
  {
    var s1 := if Stale(s.lastupdate, now) then Rooms(s, now).0 else s;
    assert |s1.log| >= |s.log|;
    if s1.rooms.Some? && s1.rooms.value != map[] {
      RoomDataReturnsBody(s1, FieldOr(s1.rooms.value, Lower(name), Null));
    }
  }

  // ---------------------------------------------------------------------------
  // Writes
  // ---------------------------------------------------------------------------

  /** Without a room (directory miss, failed fetch, no session) no write is sent and the result is None. */
  lemma NoRoomNoWrite(s: State, name: string, tenths: int, endpoint: TempEndpoint, fahToCent: int -> int,
                      mode: int, season: Value, now: int)
    requires !Truthy(RoomByName(s, name, now).1)
    ensures var s1 := RoomByName(s, name, now).0;
      SetRoomMode(s, name, mode, now) == (s1, Returned(false))
      && SetRoomTemp(s, name, tenths, endpoint, fahToCent, now) == (s1, Returned(false))
      && GetSettings(s, name, now) == (s1, Returned(Null))
      && SetSettings(s, name, season, now) == (s1, Returned(Null))
  {
  }

  /** The last exchange of `t` is a new one, its request satisfies the tag, its reply is ok with `error == code`. */
  ghost predicate LastConfirmed(s: State, t: State, code: int) {
    |t.log| > |s.log| && t.log[|t.log| - 1].reply.Ok?
    && ErrorIs(t.log[|t.log| - 1].reply.body, code) == Some(true)
  }

  /**
   * A mode write posts the mode for a room found in a live session, with the
   * session's `deviceId` and the room's `roomMark` (a room that is not a dict
   * raises instead). It reports true exactly when the cloud answered the
   * posted mode with `error == 1`; a reply with `error == 0` is a failure.
   */
  lemma ModeWriteConfirmedByOne(s: State, name: string, mode: int, now: int)
    ensures var (t, r) := SetRoomMode(s, name, mode, now);
      r == Returned(true) <==>
        LastConfirmed(s, t, WRITE_CONFIRMED)
        && t.log[|t.log| - 1].request.SetModeReq? && t.log[|t.log| - 1].request.mode.mode == mode
    ensures var (s1, room) := RoomByName(s, name, now);
      var (t, r) := SetRoomMode(s, name, mode, now);
      Truthy(room) ==>
        s1.device.Obj?
        && (!room.Obj? ==> t == s1 && r == Threw)
        && (room.Obj? ==>
              |t.log| == |s1.log| + 1 && t.log[..|s1.log|] == s1.log
              && t.log[|s1.log|]
                 == Exchange(SetModeReq(ModePayload(FieldOr(s1.device.fields, "deviceId", Null),
                                                    FieldOr(room.fields, "roomMark", Null), mode)),
                             NextReply(s1.inbox, 0)))
  {
    RoomByNameOnlyReads(s, name, now);
    RoomByNameReturnsRoomData(s, name, now);
    var (s1, room) := RoomByName(s, name, now);
    var (t, r) := SetRoomMode(s, name, mode, now);
  }

  /**
   * A temperature write for a room found in a live session with a truthy
   * `deviceId` posts to the endpoint given the room's setpoint text split at
   * its point: the setpoint itself when the room's unit is "N/A" or "0", its
   * conversion otherwise (a room that is not a dict, or a unit that cannot be
   * hashed, raises instead). It reports true exactly when the cloud answered
   * with `error == 1`.
   */
  lemma TempWriteSendsSetpoint(s: State, name: string, tenths: int, endpoint: TempEndpoint, fahToCent: int -> int, now: int)
    ensures var (s1, room) := RoomByName(s, name, now);
      var (t, r) := SetRoomTemp(s, name, tenths, endpoint, fahToCent, now);
      (|t.log| > |s1.log| ==>
        room.Obj? && t.log[|t.log| - 1].request.SetTempReq?
        && t.log[|t.log| - 1].request.endpoint == endpoint
        && var p := t.log[|t.log| - 1].request.temp;
           var unit := FieldOr(room.fields, "tempUnit", Null);
           p.tempSet + "." + p.tempSetFloat == TenthsToString(if SendsAsGiven(unit) then tenths else fahToCent(tenths))
           && (SendsAsGiven(unit) ==> p.tempSet + "." + p.tempSetFloat == TenthsToString(tenths)))
      && (r == Returned(true) <==> LastConfirmed(s1, t, WRITE_CONFIRMED))
    ensures var (s1, room) := RoomByName(s, name, now);
      var (t, r) := SetRoomTemp(s, name, tenths, endpoint, fahToCent, now);
      Truthy(room) ==>
        s1.device.Obj?
        && var deviceId := FieldOr(s1.device.fields, "deviceId", Null);
           (!Truthy(deviceId) ==> t == s1 && r == Returned(false))
           && (Truthy(deviceId) && !room.Obj? ==> t == s1 && r == Threw)
           && (Truthy(deviceId) && room.Obj? ==>
                 var fields := TempFields(FieldOr(room.fields, "tempUnit", Null), tenths, fahToCent);
                 (fields.None? ==> t == s1 && r == Threw)
                 && (fields.Some? ==>
                       |t.log| == |s1.log| + 1 && t.log[..|s1.log|] == s1.log
                       && t.log[|s1.log|]
                          == Exchange(SetTempReq(endpoint, TempPayload(deviceId, FieldOr(room.fields, "roomMark", Null),
                                                                       fields.value.0, fields.value.1)),
                                      NextReply(s1.inbox, 0))))
  {
    RoomByNameReturnsRoomData(s, name, now);
  }

  /**
   * A temperature write keeps the earlier exchanges and adds only reads and
   * at most one write, to the endpoint it was given, as its last request.
   */
  lemma TempWriteOnlyTo(s: State, name: string, tenths: int, endpoint: TempEndpoint, fahToCent: int -> int, now: int)
    ensures var t := SetRoomTemp(s, name, tenths, endpoint, fahToCent, now).0;
      |s.log| <= |t.log| && t.log[..|s.log|] == s.log
      && forall j :: |s.log| <= j < |t.log| ==>
           IsRead(t.log[j].request) || (t.log[j].request.SetTempReq? && t.log[j].request.endpoint == endpoint)
  {
    var s1 := RoomByName(s, name, now).0;
    RoomByNameOnlyReads(s, name, now);
    TempWriteSendsSetpoint(s, name, tenths, endpoint, fahToCent, now);
    var t := SetRoomTemp(s, name, tenths, endpoint, fahToCent, now).0;
    if |t.log| > |s1.log| {
      assert t.log[..|s1.log|] == s1.log;
      forall j | |s.log| <= j < |s1.log| ensures IsRead(t.log[j].request) {
        assert t.log[j] == s1.log[j];
      }
    }
  }

  /**
   * What a settings read `t, got` leaves after `s`: reads only, except a last
   * settings read, and a reply exactly when that read was confirmed.
   */
  ghost predicate SettingsRead(s: State, t: State, got: Outcome<Value>) {
    |s.log| <= |t.log| && t.log[..|s.log|] == s.log
    && (forall j :: |s.log| <= j < |t.log| - 1 ==> IsRead(t.log[j].request))
    && (|t.log| > |s.log| ==> IsRead(t.log[|t.log| - 1].request) || t.log[|t.log| - 1].request.GetSettingsReq?)
    && (got.Returned? && got.value != Null ==>
          LastConfirmed(s, t, READ_CONFIRMED)
          && t.log[|t.log| - 1].request.GetSettingsReq? && t.log[|t.log| - 1].reply == Ok(got.value))
    && (LastConfirmed(s, t, READ_CONFIRMED) && t.log[|t.log| - 1].request.GetSettingsReq? ==>
          got == Returned(t.log[|t.log| - 1].reply.body))
  }

  /** The settings read once the room is looked up: at most the read itself, and its sentinel. */
  lemma ReadSettingsFacts(s: State, room: Value)
    ensures var (t, r) := ReadSettings(s, room);
      SettingsRead(s, t, r) && |t.log| <= |s.log| + 1
  {
  }

  /** Reads of the room lookup before a settings read keep what the read leaves. */
  lemma ReadAfterLookup(s: State, s1: State, t: State, got: Outcome<Value>)
    requires OnlyReads(s, s1) && SettingsRead(s1, t, got) && |t.log| <= |s1.log| + 1
    ensures SettingsRead(s, t, got)
  {
    assert t.log[..|s.log|] == s1.log[..|s.log|];
    forall j | |s.log| <= j < |t.log| - 1 ensures IsRead(t.log[j].request) {
      if j < |s1.log| {
        assert t.log[j] == s1.log[j];
      }
    }
    if |t.log| == |s1.log| > |s.log| {
      assert t.log[|t.log| - 1] == s1.log[|s1.log| - 1];
    }
  }

  /**
   * A settings read only reads before its last request, and returns the
   * reply exactly when that request is the settings read confirmed with
   * `error == 0`.
   */
  lemma GetSettingsFacts(s: State, name: string, now: int)
    ensures var (t, r) := GetSettings(s, name, now); SettingsRead(s, t, r)
  {
    var (s1, room) := RoomByName(s, name, now);
    RoomByNameOnlyReads(s, name, now);
    ReadSettingsFacts(s1, room);
    var (t, r) := ReadSettings(s1, room);
    ReadAfterLookup(s, s1, t, r);
  }

  /**
   * A settings read for a room found in a live session posts the session's
   * `deviceId` and the room's `roomMark`; a room that is not a dict raises.
   */
  lemma GetSettingsPosts(s: State, name: string, now: int)
    ensures var (s1, room) := RoomByName(s, name, now);
      var (t, r) := GetSettings(s, name, now);
      Truthy(room) ==>
        s1.device.Obj?
        && (!room.Obj? ==> t == s1 && r == Threw)
        && (room.Obj? ==>
              |t.log| == |s1.log| + 1 && t.log[..|s1.log|] == s1.log
              && t.log[|s1.log|]
                 == Exchange(GetSettingsReq(FieldOr(s1.device.fields, "deviceId", Null),
                                            FieldOr(room.fields, "roomMark", Null)),
                             NextReply(s1.inbox, 0)))
  {
    RoomByNameReturnsRoomData(s, name, now);
  }

  /**
   * What the second half of a settings write `t` adds to `s`: nothing, or the
   * write alone, after a confirmed read `got`, carrying that read's settings
   * with the season replaced.
   */
  ghost predicate SettingsWrite(s: State, t: State, got: Outcome<Value>, season: Value) {
    (|t.log| <= |s.log| ==> t == s)
    && (|t.log| > |s.log| ==>
          |t.log| == |s.log| + 1 && t.log[..|s.log|] == s.log
          && got.Returned? && ErrorIs(got.value, READ_CONFIRMED) == Some(true)
          && t.log[|s.log|].request.SetSettingsReq?
          && (forall key :: key in COPIED_SETTINGS ==>
                Stored(t.log[|s.log|].request.settings, key) == Previous(got.value.fields, key))
          && Stored(t.log[|s.log|].request.settings, "season") == season)
  }

  lemma WriteSettingsFacts(s: State, room: Value, got: Outcome<Value>, season: Value)
    ensures SettingsWrite(s, WriteSettings(s, room, got, season).0, got, season)
  {
    var t := WriteSettings(s, room, got, season).0;
    if |t.log| > |s.log| {
      var deviceId, therId := Get(s.device, "deviceId").value, Get(room, "roomMark").value;
      OnlySeasonChanges(deviceId, therId, got.value.fields, season);
    }
  }

  /**
   * The second half of a settings write after a read `got`: a read that gave
   * no dict, or whose `error` is not 0, stops it (the first raises, the
   * second gives None); a confirmed read is posted back with the season
   * replaced, unless its settings do not split, which raises.
   */
  lemma WriteSettingsPosts(s: State, room: Value, got: Outcome<Value>, season: Value)
    ensures var (t, r) := WriteSettings(s, room, got, season);
      (got.Threw? ==> t == s && r == Threw)
      && (got.Returned? && ErrorIs(got.value, READ_CONFIRMED).None? ==> t == s && r == Threw)
      && (got.Returned? && ErrorIs(got.value, READ_CONFIRMED) == Some(false) ==> t == s && r == Returned(Null))
      && (got.Returned? && ErrorIs(got.value, READ_CONFIRMED) == Some(true) && s.device.Obj? && room.Obj? ==>
            var b := BuildSettings(FieldOr(s.device.fields, "deviceId", Null), FieldOr(room.fields, "roomMark", Null),
                                   got.value.fields, season);
            (b.None? ==> t == s && r == Threw)
            && (b.Some? ==> t.log == s.log + [Exchange(SetSettingsReq(b.value), NextReply(s.inbox, 0))]))
  {
  }

  /**
   * `setSettings` for a room found in a live session posts: once the read
   * (which looks the room up again) is confirmed with `error == 0`, the
   * settings it returned are posted back with the season replaced and the
   * first lookup's `roomMark`, unless they do not split, which raises.
   */
  lemma SetSettingsPosts(s: State, name: string, season: Value, now: int)
    ensures var (s1, room) := RoomByName(s, name, now);
      var (s2, got) := GetSettings(s1, name, now);
      var (t, r) := SetSettings(s, name, season, now);
      Truthy(room) && room.Obj? && got.Returned? && ErrorIs(got.value, READ_CONFIRMED) == Some(true) ==>
        s2.device.Obj?
        && var b := BuildSettings(FieldOr(s2.device.fields, "deviceId", Null), FieldOr(room.fields, "roomMark", Null),
                                  got.value.fields, season);
           (b.None? ==> t == s2 && r == Threw)
           && (b.Some? ==> t.log == s2.log + [Exchange(SetSettingsReq(b.value), NextReply(s2.inbox, 0))])
  {
    RoomByNameReturnsRoomData(s, name, now);
    var (s1, room) := RoomByName(s, name, now);
    RoomByNameReturnsRoomData(s1, name, now);
    var (s2, got) := GetSettings(s1, name, now);
    WriteSettingsPosts(s2, room, got, season);
  }

  /**
   * Every exchange after `s` is a read, except a settings read among the last
   * two and a settings write as the last, sent right after the confirmed read
   * it copies.
   */
  ghost predicate WriteFollowsRead(s: State, t: State, season: Value) {
    (forall j :: |s.log| <= j < |t.log| ==>
       IsRead(t.log[j].request)
       || (t.log[j].request.GetSettingsReq? && j >= |t.log| - 2)
       || (t.log[j].request.SetSettingsReq? && j == |t.log| - 1))
    && (|t.log| > |s.log| && t.log[|t.log| - 1].request.SetSettingsReq? ==>
      var p := t.log[|t.log| - 1].request.settings;
      |t.log| - 2 >= |s.log|
      && var read := t.log[|t.log| - 2];
         read.request.GetSettingsReq? && read.reply.Ok?
         && ErrorIs(read.reply.body, READ_CONFIRMED) == Some(true)
         && (forall key :: key in COPIED_SETTINGS ==> Stored(p, key) == Previous(read.reply.body.fields, key))
         && Stored(p, "season") == season)
  }

  /** The two halves of a settings write put together: the read's guarantees and the write's. */
  lemma ReadThenWrite(s: State, s2: State, got: Outcome<Value>, t: State, season: Value)
    requires SettingsRead(s, s2, got) && SettingsWrite(s2, t, got, season)
    ensures |s.log| <= |t.log| && t.log[..|s.log|] == s.log
    ensures WriteFollowsRead(s, t, season)
  {
    if |t.log| > |s2.log| {
      assert t.log[|t.log| - 2] == s2.log[|s2.log| - 1];
    }
  }

  /** The settings write once the room is looked up: it keeps the earlier exchanges and writes only after a confirmed read. */
  lemma SettingsForFacts(s: State, room: Value, name: string, season: Value, now: int)
    ensures var t := SettingsFor(s, room, name, season, now).0;
      |s.log| <= |t.log| && t.log[..|s.log|] == s.log && WriteFollowsRead(s, t, season)
  {
    var t := SettingsFor(s, room, name, season, now).0;
    if Truthy(s.device) && Truthy(room) {
      var (s2, got) := GetSettings(s, name, now);
      GetSettingsFacts(s, name, now);
      var w := WriteSettings(s2, room, got, season).0;
      WriteSettingsFacts(s2, room, got, season);
      ReadThenWrite(s, s2, got, w, season);
      assert t == w;
    }
  }

  /** Reads before a write that follows its confirmed read leave the write following it. */
  lemma ReadsBeforeWrite(s: State, s1: State, t: State, season: Value)
    requires OnlyReads(s, s1)
    requires |s1.log| <= |t.log| && t.log[..|s1.log|] == s1.log && WriteFollowsRead(s1, t, season)
    ensures WriteFollowsRead(s, t, season)
  {
    if |t.log| == |s1.log| > |s.log| {
      assert t.log[|t.log| - 1] == s1.log[|s1.log| - 1];
      assert IsRead(t.log[|t.log| - 1].request);
    }
  }

  /**
   * A settings write is posted only after a settings read in the same call
   * confirmed with `error == 0`, and carries every copied setting of that
   * read unchanged (or its default) with only the season replaced.
   */
  lemma SettingsWriteKeepsPrevious(s: State, name: string, season: Value, now: int)
    ensures WriteFollowsRead(s, SetSettings(s, name, season, now).0, season)
  {
    var (s1, room) := RoomByName(s, name, now);
    RoomByNameOnlyReads(s, name, now);
    SettingsForFacts(s1, room, name, season, now);
    ReadsBeforeWrite(s, s1, SettingsFor(s1, room, name, season, now).0, season);
  }

  // ---------------------------------------------------------------------------
  // The settings write's sentinel
  // ---------------------------------------------------------------------------

  /**
   * The result of a settings write `r` after `s`, ending in `t`: a reply is
   * returned only when the last exchange was a settings write answered with
   * `error == 0`, and a write answered with `error == 1` gives Null.
   */
  ghost predicate SettingsWriteSentinel(s: State, t: State, r: Outcome<Value>) {
    (r.Returned? && r.value != Null ==>
       LastConfirmed(s, t, READ_CONFIRMED)
       && t.log[|t.log| - 1].request.SetSettingsReq? && t.log[|t.log| - 1].reply == Ok(r.value))
    && (LastConfirmed(s, t, READ_CONFIRMED) && t.log[|t.log| - 1].request.SetSettingsReq? ==>
          r == Returned(t.log[|t.log| - 1].reply.body))
    && (LastConfirmed(s, t, WRITE_CONFIRMED) && t.log[|t.log| - 1].request.SetSettingsReq? ==> r == Returned(Null))
  }

  /** The settings post returns the reply exactly when its `error` is 0. */
  lemma PostSettingsSentinel(s: State, p: SettingsPayload)
    ensures var (t, r) := PostSettings(s, p);
      |t.log| == |s.log| + 1 && SettingsWriteSentinel(s, t, r)
  {
    var (t, reply) := Send(s, SetSettingsReq(p));
    if reply.Ok? {
      SentinelsExclusive(reply.body);
    }
  }

  /** The second half of a settings write: a post and its sentinel, or no post and no reply. */
  lemma WriteSettingsSentinel(s: State, room: Value, got: Outcome<Value>, season: Value)
    ensures var (t, r) := WriteSettings(s, room, got, season);
      (|t.log| <= |s.log| ==> r == Threw || r == Returned(Null))
      && (|t.log| > |s.log| ==> SettingsWriteSentinel(s, t, r))
  {
    var (t, r) := WriteSettings(s, room, got, season);
    if got.Returned? && ErrorIs(got.value, READ_CONFIRMED) == Some(true)
       && Get(s.device, "deviceId").Some? && Get(room, "roomMark").Some?
    {
      var p := BuildSettings(Get(s.device, "deviceId").value, Get(room, "roomMark").value, got.value.fields, season);
      if p.Some? {
        PostSettingsSentinel(s, p.value);
      } else {
        assert t == s && r == Threw;
      }
    } else {
      assert t == s && (r == Threw || r == Returned(Null));
    }
  }

  /** Reads and a settings read before the write leave the write's sentinel as it is. */
  lemma SentinelAfterReads(s: State, s2: State, got: Outcome<Value>, t: State, r: Outcome<Value>, season: Value)
    requires SettingsRead(s, s2, got) && SettingsWrite(s2, t, got, season)
    requires |t.log| <= |s2.log| ==> r == Threw || r == Returned(Null)
    requires |t.log| > |s2.log| ==> SettingsWriteSentinel(s2, t, r)
    ensures SettingsWriteSentinel(s, t, r)
  {
    if |t.log| > |s2.log| {
      assert |s2.log| >= |s.log|;
    }
  }

  /** The same through the reads of the room lookup before it. */
  lemma SentinelAfterLookup(s: State, s1: State, t: State, r: Outcome<Value>)
    requires OnlyReads(s, s1) && |s1.log| <= |t.log| && t.log[..|s1.log|] == s1.log
    requires SettingsWriteSentinel(s1, t, r)
    ensures SettingsWriteSentinel(s, t, r)
  {
    if |t.log| == |s1.log| > |s.log| {
      assert t.log[|t.log| - 1] == s1.log[|s1.log| - 1];
      assert IsRead(t.log[|t.log| - 1].request);
    }
  }

  /** `setSettings` once the room is looked up keeps the sentinel of its write. */
  lemma SettingsForSentinel(s: State, room: Value, name: string, season: Value, now: int)
    ensures var (t, r) := SettingsFor(s, room, name, season, now);
      |s.log| <= |t.log| && t.log[..|s.log|] == s.log && SettingsWriteSentinel(s, t, r)
  {
    SettingsForFacts(s, room, name, season, now);
    if Truthy(s.device) && Truthy(room) {
      var (s2, got) := GetSettings(s, name, now);
      GetSettingsFacts(s, name, now);
      var (w, r) := WriteSettings(s2, room, got, season);
      WriteSettingsFacts(s2, room, got, season);
      WriteSettingsSentinel(s2, room, got, season);
      SentinelAfterReads(s, s2, got, w, r, season);
    }
  }

  /**
   * `setSettings` returns the cloud's reply only when its last exchange was
   * the settings write and the reply's `error` is 0; a write answered with
   * `error == 1`, the sentinel of the mode and temperature writes, gives Null.
   */
  lemma SettingsWriteConfirmedByZero(s: State, name: string, season: Value, now: int)
    ensures var (t, r) := SetSettings(s, name, season, now); SettingsWriteSentinel(s, t, r)
  {
    var (s1, room) := RoomByName(s, name, now);
    RoomByNameOnlyReads(s, name, now);
    SettingsForSentinel(s1, room, name, season, now);
    var (t, r) := SettingsFor(s1, room, name, season, now);
    SentinelAfterLookup(s, s1, t, r);
  }
}

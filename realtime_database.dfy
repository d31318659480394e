/**
 * The store helpers as they act on the realtime database's JSON tree: room
 * codes and the bounded retry that looks for a free one, the path strings
 * of `dbPaths`, the `getRoom` read, the schema written for a new room and
 * the check of it, and the multi-path update that resets a room.
 *
 * The tree under `rooms` is a map from room id to a JSON value. Writing
 * `null` at a path removes what was there; a write below a missing or
 * non-object node makes it an object.
 */
module RealtimeDatabase {
  import opened Common

  datatype Json = JNull | JBool(b: bool) | JNum(n: int) | JStr(s: string) | JObj(fields: map<string, Json>)

  /**
   * The keys a spread `{...v}` copies, as modelled: an object's fields, and
   * nothing for any other value. JavaScript copies nothing for a number,
   * boolean or null, but a string's characters under "0", "1", …; the
   * model gives a string no fields as well.
   */
  function FieldsOf(v: Json): map<string, Json> {
    if v.JObj? then v.fields else map[]
  }

  // ---------------------------------------------------------------------
  // Paths

  /** A database key: it never contains the path separator. */
  predicate IsSegment(s: string) {
    '/' !in s
  }

  /** The segments joined by `/`. */
  function JoinPath(segments: seq<string>): string
    requires |segments| > 0
  {
    if |segments| == 1 then segments[0] else segments[0] + "/" + JoinPath(segments[1..])
  }

  /** A path cut at every `/`, as the database reads it. */
  function SplitPath(p: string): (segments: seq<string>)
    ensures |segments| > 0
  {
    if p == [] then [""]
    else
      var rest := SplitPath(p[1..]);
      if p[0] == '/' then [""] + rest else [[p[0]] + rest[0]] + rest[1..]
  }

  lemma {:induction false} SplitPrefix(a: string, t: string)
    requires IsSegment(a)
    ensures SplitPath(a + t) == [a + SplitPath(t)[0]] + SplitPath(t)[1..]
  {
    if a == [] {
      assert a + t == t;
      assert a + SplitPath(t)[0] == SplitPath(t)[0];
    } else {
      assert (a + t)[0] == a[0];
      assert (a + t)[1..] == a[1..] + t;
      SplitPrefix(a[1..], t);
      assert [a[0]] + (a[1..] + SplitPath(t)[0]) == a + SplitPath(t)[0];
    }
  }

  /** Joining keys and cutting the result gives the keys back. */
  lemma {:induction false} SplitJoin(segments: seq<string>)
    requires |segments| > 0
    requires forall i :: 0 <= i < |segments| ==> IsSegment(segments[i])
    ensures SplitPath(JoinPath(segments)) == segments
  {
    if |segments| == 1 {
      SplitPrefix(segments[0], "");
      assert segments[0] + "" == segments[0];
    } else {
      var rest := JoinPath(segments[1..]);
      SplitJoin(segments[1..]);
      assert JoinPath(segments) == segments[0] + ("/" + rest);
      SplitPrefix(segments[0], "/" + rest);
      assert ("/" + rest)[1..] == rest;
      assert SplitPath("/" + rest) == [""] + SplitPath(rest);
      assert segments[0] + "" == segments[0];
      assert [segments[0]] + segments[1..] == segments;
    }
  }

  /** `dbPaths.room`. */
  function RoomPath(roomId: string): (p: string)
    ensures p == JoinPath(["rooms", roomId])
  {
    assert ["rooms", roomId][1..] == [roomId];
    "rooms/" + roomId
  }

  lemma JoinThree(a: string, b: string, c: string)
    ensures JoinPath([a, b, c]) == a + "/" + b + "/" + c
  {
    assert [a, b, c][1..] == [b, c];
    assert [b, c][1..] == [c];
    assert JoinPath([b, c]) == b + "/" + c;
    assert JoinPath([a, b, c]) == a + "/" + (b + "/" + c);
    assert a + "/" + (b + "/" + c) == a + "/" + b + "/" + c;
  }

  lemma JoinFour(a: string, b: string, c: string, d: string)
    ensures JoinPath([a, b, c, d]) == a + "/" + b + "/" + c + "/" + d
  {
    assert [a, b, c, d][1..] == [b, c, d];
    JoinThree(b, c, d);
    assert JoinPath([a, b, c, d]) == a + "/" + (b + "/" + c + "/" + d);
    assert a + "/" + (b + "/" + c + "/" + d) == a + "/" + b + "/" + c + "/" + d;
  }

  /** `dbPaths.roomPlayers`. */
  function RoomPlayersPath(roomId: string): (p: string)
    ensures p == JoinPath(["rooms", roomId, "players"])
  {
    JoinThree("rooms", roomId, "players");
    "rooms/" + roomId + "/players"
  }

  /** `dbPaths.roomInvestigations`. */
  function RoomInvestigationsPath(roomId: string): (p: string)
    ensures p == JoinPath(["rooms", roomId, "investigations"])
  {
    JoinThree("rooms", roomId, "investigations");
    "rooms/" + roomId + "/investigations"
  }

  /** `dbPaths.player`. */
  function PlayerPath(roomId: string, playerId: string): (p: string)
    ensures p == JoinPath(["rooms", roomId, "players", playerId])
    ensures p == RoomPlayersPath(roomId) + "/" + playerId
  {
    JoinFour("rooms", roomId, "players", playerId);
    "rooms/" + roomId + "/players/" + playerId
  }

  /** `dbPaths.investigation`. */
  function InvestigationPath(roomId: string, targetId: string): (p: string)
    ensures p == JoinPath(["rooms", roomId, "investigations", targetId])
    ensures p == RoomInvestigationsPath(roomId) + "/" + targetId
  {
    JoinFour("rooms", roomId, "investigations", targetId);
    "rooms/" + roomId + "/investigations/" + targetId
  }

  /** For ids that are keys, each path names the intended node, and different ids give different paths. */
  lemma PathsAddressTheirNodes(roomId: string, id: string)
    requires IsSegment(roomId) && IsSegment(id)
    ensures SplitPath(RoomPath(roomId)) == ["rooms", roomId]
    ensures SplitPath(RoomPlayersPath(roomId)) == ["rooms", roomId, "players"]
    ensures SplitPath(RoomInvestigationsPath(roomId)) == ["rooms", roomId, "investigations"]
    ensures SplitPath(PlayerPath(roomId, id)) == ["rooms", roomId, "players", id]
    ensures SplitPath(InvestigationPath(roomId, id)) == ["rooms", roomId, "investigations", id]
  {
    SplitJoin(["rooms", roomId]);
    SplitJoin(["rooms", roomId, "players"]);
    SplitJoin(["rooms", roomId, "investigations"]);
    SplitJoin(["rooms", roomId, "players", id]);
    SplitJoin(["rooms", roomId, "investigations", id]);
  }

  lemma PlayerPathInjective(r1: string, p1: string, r2: string, p2: string)
    requires IsSegment(r1) && IsSegment(p1) && IsSegment(r2) && IsSegment(p2)
    requires PlayerPath(r1, p1) == PlayerPath(r2, p2)
    ensures r1 == r2 && p1 == p2
  {
    PathsAddressTheirNodes(r1, p1);
    PathsAddressTheirNodes(r2, p2);
    assert ["rooms", r1, "players", p1][1] == r1 && ["rooms", r1, "players", p1][3] == p1;
  }

  lemma InvestigationPathInjective(r1: string, t1: string, r2: string, t2: string)
    requires IsSegment(r1) && IsSegment(t1) && IsSegment(r2) && IsSegment(t2)
    requires InvestigationPath(r1, t1) == InvestigationPath(r2, t2)
    ensures r1 == r2 && t1 == t2
  {
    PathsAddressTheirNodes(r1, t1);
    PathsAddressTheirNodes(r2, t2);
    assert ["rooms", r1, "investigations", t1][1] == r1 && ["rooms", r1, "investigations", t1][3] == t1;
  }

  /** A player record and an investigation record never share a path. */
  lemma PlayerAndInvestigationPathsDiffer(roomId: string, playerId: string, targetId: string)
    requires IsSegment(roomId) && IsSegment(playerId) && IsSegment(targetId)
    ensures PlayerPath(roomId, playerId) != InvestigationPath(roomId, targetId)
  {
    PathsAddressTheirNodes(roomId, playerId);
    PathsAddressTheirNodes(roomId, targetId);
    assert ["rooms", roomId, "players", playerId][2] != ["rooms", roomId, "investigations", targetId][2];
  }

  // ---------------------------------------------------------------------
  // Room codes

  const Alphabet: string := "ABCDEFGHIJKLMNOPQRSTUVWXYZ0123456789"

  /**
   * The random draws one `generateRoomCode` call makes:
   * `floor(random * 3)` for the length, then `floor(random * 36)` per character.
   */
  datatype CodeDraw = CodeDraw(lengthDraw: nat, charDraws: seq<nat>)

  predicate ValidDraw(d: CodeDraw) {
    && d.lengthDraw < 3
    && |d.charDraws| == d.lengthDraw + 4
    && forall i :: 0 <= i < |d.charDraws| ==> d.charDraws[i] < |Alphabet|
  }

  /** The code the draws spell. */
  function CodeOf(d: CodeDraw): string
    requires ValidDraw(d)
  {
    seq(d.lengthDraw + 4, i requires 0 <= i < d.lengthDraw + 4 => Alphabet[d.charDraws[i]])
  }

  /** A room code: four to six characters, each an upper-case letter or a digit. */
  predicate IsRoomCode(code: string) {
    && 4 <= |code| <= 6
    && forall i :: 0 <= i < |code| ==> code[i] in Alphabet
  }

  predicate IsCodeChar(c: char) {
    'A' <= c <= 'Z' || '0' <= c <= '9'
  }

  /** The alphabet is exactly the upper-case letters and the digits. */
  lemma AlphabetChars(c: char)
    ensures c in Alphabet <==> IsCodeChar(c)
  {
    assert forall i :: 0 <= i < |Alphabet| ==> IsCodeChar(Alphabet[i]);
    if 'A' <= c <= 'Z' {
      assert Alphabet[c as int - 'A' as int] == c;
    } else if '0' <= c <= '9' {
      assert Alphabet[26 + c as int - '0' as int] == c;
    }
  }

  /** Every draw gives a room code, and every room code is given by some draw. */
  lemma CodeOfIsRoomCode(d: CodeDraw)
    requires ValidDraw(d)
    ensures IsRoomCode(CodeOf(d))
  {
  }

  lemma EveryRoomCodeIsDrawn(code: string)
    requires IsRoomCode(code)
    ensures exists d :: ValidDraw(d) && CodeOf(d) == code
  {
    var idx := seq(|code|, i requires 0 <= i < |code| => IndexIn(Alphabet, code[i]));
    var d := CodeDraw(|code| - 4, idx);
    assert ValidDraw(d);
    assert CodeOf(d) == code;
  }

  function IndexIn(s: string, c: char): (k: nat)
    requires c in s
    ensures k < |s| && s[k] == c
  {
    if s[0] == c then 0 else 1 + IndexIn(s[1..], c)
  }

  /** `generateRoomCode`: one character per counted step. */
  method GenerateRoomCode(d: CodeDraw) returns (code: string)
    requires ValidDraw(d)
    ensures code == CodeOf(d)
    ensures IsRoomCode(code)
  {
    var length := d.lengthDraw + 4;
    code := "";
    for i := 0 to length
      invariant code == CodeOf(d)[..i]
    {
      code := code + [Alphabet[d.charDraws[i]]];
    }
  }

  const MaxAttempts: nat := 10
  const UniqueCodeError: string := "Failed to generate unique room code after maximum attempts"

  predicate ValidDraws(draws: seq<CodeDraw>) {
    && |draws| > MaxAttempts
    && forall i :: 0 <= i < |draws| ==> ValidDraw(draws[i])
  }

  /**
   * What the do-while of `generateUniqueRoomCode` settles on once
   * `attempts` codes have been found taken: the next code if it is free,
   * the one after that otherwise, and the error once the eleventh code is drawn.
   */
  function UniqueCodeFrom(draws: seq<CodeDraw>, taken: set<string>, attempts: nat): Result<string>
    requires ValidDraws(draws) && attempts <= MaxAttempts
    decreases MaxAttempts - attempts
  {
    var code := CodeOf(draws[attempts]);
    if attempts + 1 > MaxAttempts then Failure(UniqueCodeError)
    else if code in taken then UniqueCodeFrom(draws, taken, attempts + 1)
    else Success(code)
  }

  lemma {:induction false} UniqueCodeFromIsFirstFree(draws: seq<CodeDraw>, taken: set<string>, a: nat)
    requires ValidDraws(draws) && a <= MaxAttempts
    ensures var r := UniqueCodeFrom(draws, taken, a);
      && (r.Success? <==> exists k :: a <= k < MaxAttempts && CodeOf(draws[k]) !in taken)
      && (r.Failure? ==> r.error == UniqueCodeError)
      && (r.Success? ==> exists k :: a <= k < MaxAttempts && r.value == CodeOf(draws[k]) && r.value !in taken
                                     && forall j :: a <= j < k ==> CodeOf(draws[j]) in taken)
    decreases MaxAttempts - a
  {
    if a + 1 <= MaxAttempts && CodeOf(draws[a]) in taken {
      UniqueCodeFromIsFirstFree(draws, taken, a + 1);
      var r := UniqueCodeFrom(draws, taken, a);
      if r.Success? {
        var k :| a + 1 <= k < MaxAttempts && r.value == CodeOf(draws[k]) && r.value !in taken
                 && forall j :: a + 1 <= j < k ==> CodeOf(draws[j]) in taken;
        assert forall j :: a <= j < k ==> CodeOf(draws[j]) in taken;
      }
    }
  }

  /**
   * `generateUniqueRoomCode`'s result: the first of the first ten drawn codes
   * that is free, or the error when all ten are taken.
   */
  lemma UniqueCodeIsFirstFree(draws: seq<CodeDraw>, taken: set<string>)
    requires ValidDraws(draws)
    ensures var r := UniqueCodeFrom(draws, taken, 0);
      && (r.Failure? <==> forall k :: 0 <= k < MaxAttempts ==> CodeOf(draws[k]) in taken)
      && (r.Failure? ==> r.error == UniqueCodeError)
      && (r.Success? ==> IsRoomCode(r.value) && r.value !in taken)
      && (r.Success? ==> exists k :: 0 <= k < MaxAttempts && r.value == CodeOf(draws[k])
                                     && forall j :: 0 <= j < k ==> CodeOf(draws[j]) in taken)
  {
    UniqueCodeFromIsFirstFree(draws, taken, 0);
    var r := UniqueCodeFrom(draws, taken, 0);
    if r.Success? {
      var k :| 0 <= k < MaxAttempts && r.value == CodeOf(draws[k]) && r.value !in taken
               && forall j :: 0 <= j < k ==> CodeOf(draws[j]) in taken;
      CodeOfIsRoomCode(draws[k]);
    }
  }

  // ---------------------------------------------------------------------
  // Reads

  /** `getRoom`: null when absent, otherwise the stored fields with `id` set to the room id. */
  function GetRoom(rooms: map<string, Json>, roomId: string): (r: Option<map<string, Json>>)
    ensures r.None? <==> roomId !in rooms
    ensures r.Some? ==> "id" in r.value && r.value["id"] == JStr(roomId)
    ensures r.Some? ==> r.value.Keys == FieldsOf(rooms[roomId]).Keys + {"id"}
    ensures r.Some? ==> forall k :: k in FieldsOf(rooms[roomId]) && k != "id" ==> r.value[k] == FieldsOf(rooms[roomId])[k]
  {
    if roomId !in rooms then None else Some(FieldsOf(rooms[roomId])["id" := JStr(roomId)])
  }

  /** `getRoomPlayers`: the players object, or `{}` when there is none. */
  function RoomPlayers(rooms: map<string, Json>, roomId: string): (v: Json)
    ensures roomId in rooms && "players" in FieldsOf(rooms[roomId]) ==> v == FieldsOf(rooms[roomId])["players"]
    ensures !(roomId in rooms && "players" in FieldsOf(rooms[roomId])) ==> v == JObj(map[])
  {
    if roomId in rooms && "players" in FieldsOf(rooms[roomId]) then FieldsOf(rooms[roomId])["players"] else JObj(map[])
  }

  // ---------------------------------------------------------------------
  // Schema

  /** The document `initializeRoomSchema` writes. */
  function Schema(now: int): (j: Json)
    ensures j.JObj? && j.fields.Keys == {"status", "createdAt", "players", "investigations"}
    ensures j.fields["status"] == JStr("LOBBY") && j.fields["createdAt"] == JNum(now)
    ensures j.fields["players"] == JObj(map[]) && j.fields["investigations"] == JObj(map[])
  {
    JObj(map["status" := JStr("LOBBY"), "createdAt" := JNum(now),
             "players" := JObj(map[]), "investigations" := JObj(map[])])
  }

  /** `room[field] !== undefined && room[field] !== null`. */
  predicate Present(room: map<string, Json>, field: string) {
    field in room && room[field] != JNull
  }

  /** `typeof room[field] === "object"`: an object, or null, but not a missing field. */
  predicate IsObjectTyped(room: map<string, Json>, field: string) {
    field in room && (room[field].JObj? || room[field] == JNull)
  }

  /** `validateRoomSchema`. */
  function ValidateRoomSchema(rooms: map<string, Json>, roomId: string): (ok: bool)
    ensures ok <==>
      && roomId in rooms
      && Present(FieldsOf(rooms[roomId]), "status") && Present(FieldsOf(rooms[roomId]), "createdAt")
      && IsObjectTyped(FieldsOf(rooms[roomId]), "players")
      && IsObjectTyped(FieldsOf(rooms[roomId]), "investigations")
  {
    match GetRoom(rooms, roomId)
    case None => false
    case Some(room) =>
      Present(room, "status") && Present(room, "createdAt")
      && IsObjectTyped(room, "players") && IsObjectTyped(room, "investigations")
  }

  /** A room just written by `initializeRoomSchema` passes `validateRoomSchema`. */
  lemma InitializedRoomValidates(rooms: map<string, Json>, roomId: string, now: int)
    ensures ValidateRoomSchema(rooms[roomId := Schema(now)], roomId)
  {
  }

  // ---------------------------------------------------------------------
  // Multi-path updates

  /** The value after writing `v` at `path` below `j`; writing null removes the key. */
  function SetAt(j: Json, path: seq<string>, v: Json): Json
    decreases |path|
  {
    if path == [] then v
    else
      var fields := FieldsOf(j);
      var child := if path[0] in fields then fields[path[0]] else JNull;
      var updated := SetAt(child, path[1..], v);
      JObj(if updated == JNull then fields - {path[0]} else fields[path[0] := updated])
  }

  /** `update(ref, updates)`: each entry's path, cut at `/`, receives its value, in order. */
  function ApplyUpdates(j: Json, updates: seq<(string, Json)>): Json
    decreases |updates|
  {
    if updates == [] then j
    else
      var last := updates[|updates| - 1];
      SetAt(ApplyUpdates(j, updates[..|updates| - 1]), SplitPath(last.0), last.1)
  }

  lemma {:induction false} ApplyUpdatesAppend(j: Json, a: seq<(string, Json)>, b: seq<(string, Json)>)
    ensures ApplyUpdates(j, a + b) == ApplyUpdates(ApplyUpdates(j, a), b)
    decreases |b|
  {
    if b == [] {
      assert a + b == a;
    } else {
      assert (a + b)[..|a + b| - 1] == a + b[..|b| - 1];
      ApplyUpdatesAppend(j, a, b[..|b| - 1]);
    }
  }

  /** The room-level fields `resetRoom` writes, in the order it writes them. */
  const ResetFields: seq<(string, Json)> :=
    [("status", JStr("LOBBY")), ("startedAt", JNull), ("endedAt", JNull),
     ("currentChancellorId", JNull), ("investigations", JNull)]

  /** The fields `resetRoom` clears at the top of the room. */
  const ClearedFields: set<string> := {"startedAt", "endedAt", "currentChancellorId", "investigations"}

  function RolePath(playerId: string): string {
    JoinPath(["players", playerId, "role"])
  }

  /** One `players/P/role: null` entry per id, in the given order. */
  function RoleClears(order: seq<string>): (u: seq<(string, Json)>)
    ensures |u| == |order|
    ensures forall i :: 0 <= i < |order| ==> u[i] == (RolePath(order[i]), JNull)
  {
    if order == [] then [] else RoleClears(order[..|order| - 1]) + [(RolePath(order[|order| - 1]), JNull)]
  }

  /** The keys `Object.keys(players || {})` lists. */
  function KeysOf(players: Json): set<string> {
    FieldsOf(players).Keys
  }

  /** The player record without its `role` field. */
  function ClearRole(player: Json): (p: Json)
    ensures p.JObj? && p.fields.Keys == FieldsOf(player).Keys - {"role"}
    ensures forall k :: k in p.fields ==> p.fields[k] == FieldsOf(player)[k]
  {
    JObj(FieldsOf(player) - {"role"})
  }

  function ClearRoles(players: map<string, Json>): (ps: map<string, Json>)
    ensures ps.Keys == players.Keys
    ensures forall p :: p in players ==> ps[p] == ClearRole(players[p])
  {
    map p | p in players :: ClearRole(players[p])
  }

  /**
   * The room after the reset update: status LOBBY; no start, end,
   * chancellor or investigations; every player without a role; every other
   * field as it was.
   */
  function ResetEffect(room: Json): Json {
    var g := (FieldsOf(room) - ClearedFields)["status" := JStr("LOBBY")];
    JObj(if "players" in g && g["players"].JObj? then g["players" := JObj(ClearRoles(g["players"].fields))] else g)
  }

  lemma ResetEffectFields(room: Json)
    ensures ResetEffect(room).JObj?
    ensures var f := ResetEffect(room).fields;
      && f.Keys == (FieldsOf(room).Keys - ClearedFields) + {"status"}
      && f["status"] == JStr("LOBBY")
      && (forall k :: k in f && k != "status" && k != "players" ==> f[k] == FieldsOf(room)[k])
      && ("players" in f && FieldsOf(room)["players"].JObj? ==>
            && f["players"].JObj?
            && f["players"].fields.Keys == FieldsOf(room)["players"].fields.Keys
            && forall p :: p in f["players"].fields ==> f["players"].fields[p] == ClearRole(FieldsOf(room)["players"].fields[p]))
      && ("players" in f && !FieldsOf(room)["players"].JObj? ==> f["players"] == FieldsOf(room)["players"])
  {
  }

  /** Resetting a reset room changes nothing. */
  lemma ResetIdempotent(room: Json)
    ensures ResetEffect(ResetEffect(room)) == ResetEffect(room)
  {
    var once := ResetEffect(room);
    var g := (FieldsOf(room) - ClearedFields)["status" := JStr("LOBBY")];
    if "players" in g && g["players"].JObj? {
      var ps := ClearRoles(g["players"].fields);
      forall p | p in ps ensures ClearRole(ps[p]) == ps[p] {
        assert FieldsOf(ps[p]) - {"role"} == FieldsOf(ps[p]);
      }
      assert ClearRoles(ps) == ps;
    }
    assert (FieldsOf(once) - ClearedFields)["status" := JStr("LOBBY")] == FieldsOf(once);
  }

  /** A reset room has no `investigations` object, so `validateRoomSchema` rejects it. */
  lemma ResetRoomFailsSchema(rooms: map<string, Json>, roomId: string, room: Json)
    ensures !ValidateRoomSchema(rooms[roomId := ResetEffect(room)], roomId)
  {
    assert "investigations" !in ResetEffect(room).fields;
  }

  /** An entry whose path is a single key sets or removes that key of the object. */
  lemma ApplyTopField(j: Json, u: seq<(string, Json)>, k: string, v: Json)
    requires IsSegment(k)
    ensures ApplyUpdates(j, u + [(k, v)]) ==
      JObj(if v == JNull then FieldsOf(ApplyUpdates(j, u)) - {k} else FieldsOf(ApplyUpdates(j, u))[k := v])
  {
    var w := u + [(k, v)];
    assert w[..|w| - 1] == u && w[|w| - 1] == (k, v);
    SplitJoin([k]);
    assert JoinPath([k]) == k;
    assert SplitPath(k) == [k];
    var before := ApplyUpdates(j, u);
    assert ApplyUpdates(j, w) == SetAt(before, [k], v);
    assert [k][1..] == [];
    var child := if k in FieldsOf(before) then FieldsOf(before)[k] else JNull;
    assert SetAt(child, [], v) == v;
  }

  /** The five room-level entries give the room-level part of the effect. */
  lemma ApplyResetFields(room: Json)
    ensures ApplyUpdates(room, ResetFields) ==
            JObj((FieldsOf(room) - ClearedFields)["status" := JStr("LOBBY")])
  {
    var f := FieldsOf(room);
    var u0: seq<(string, Json)> := [];
    var u1 := u0 + [("status", JStr("LOBBY"))];
    var u2 := u1 + [("startedAt", JNull)];
    var u3 := u2 + [("endedAt", JNull)];
    var u4 := u3 + [("currentChancellorId", JNull)];
    var u5 := u4 + [("investigations", JNull)];
    assert u5 == ResetFields;
    ResetKeysAreSegments();
    ApplyTopField(room, u0, "status", JStr("LOBBY"));
    ApplyTopField(room, u1, "startedAt", JNull);
    ApplyTopField(room, u2, "endedAt", JNull);
    ApplyTopField(room, u3, "currentChancellorId", JNull);
    ApplyTopField(room, u4, "investigations", JNull);
    ResetFieldsInOneGo(f);
  }

  lemma ResetFieldsInOneGo(f: map<string, Json>)
    ensures f["status" := JStr("LOBBY")] - {"startedAt"} - {"endedAt"} - {"currentChancellorId"} - {"investigations"}
        == (f - ClearedFields)["status" := JStr("LOBBY")]
  {
    var stepwise := f["status" := JStr("LOBBY")] - {"startedAt"} - {"endedAt"} - {"currentChancellorId"} - {"investigations"};
    var direct := (f - ClearedFields)["status" := JStr("LOBBY")];
    assert forall k :: k in stepwise <==> k in direct;
    assert forall k :: k in stepwise ==> stepwise[k] == direct[k];
  }

  /** The room-level keys `resetRoom` writes are single keys. */
  lemma ResetKeysAreSegments()
    ensures IsSegment("status") && IsSegment("startedAt") && IsSegment("endedAt")
    ensures IsSegment("currentChancellorId") && IsSegment("investigations")
  {
    assert "currentChancellorId" == "current" + "Chancellor" + "Id";
    assert "investigations" == "invest" + "igations";
  }

  /** The players object with the roles of the ids in `done` cleared. */
  function ClearSome(players: map<string, Json>, done: set<string>): map<string, Json> {
    map p | p in players :: if p in done then ClearRole(players[p]) else players[p]
  }

  /** One `players/P/role: null` entry clears P's role and leaves the rest alone. */
  lemma ClearOneRole(g: map<string, Json>, pf: map<string, Json>, p: string)
    requires "players" in g && g["players"] == JObj(pf) && p in pf
    ensures SetAt(JObj(g), ["players", p, "role"], JNull) == JObj(g["players" := JObj(pf[p := ClearRole(pf[p])])])
  {
    assert ["players", p, "role"][1..] == [p, "role"];
    assert [p, "role"][1..] == ["role"];
    assert ["role"][1..] == [];
    assert SetAt(pf[p], ["role"], JNull) == ClearRole(pf[p]);
    assert SetAt(JObj(pf), [p, "role"], JNull) == JObj(pf[p := ClearRole(pf[p])]);
  }

  /** Clearing a role twice is clearing it once. */
  lemma ClearRoleTwice(v: Json)
    ensures ClearRole(ClearRole(v)) == ClearRole(v)
  {
    assert FieldsOf(ClearRole(v)) - {"role"} == FieldsOf(ClearRole(v));
  }

  /** Clearing one more id's role extends the set of cleared ids. */
  lemma ClearSomeStep(pf: map<string, Json>, done: set<string>, p: string)
    requires p in pf
    ensures ClearSome(pf, done)[p := ClearRole(ClearSome(pf, done)[p])] == ClearSome(pf, done + {p})
  {
    ClearRoleTwice(pf[p]);
  }

  /** Each `players/P/role: null` entry clears exactly P's role. */
  lemma {:induction false} ApplyRoleClears(g: map<string, Json>, order: seq<string>)
    requires "players" in g && g["players"].JObj?
    requires forall i :: 0 <= i < |order| ==> IsSegment(order[i]) && order[i] in g["players"].fields
    ensures ApplyUpdates(JObj(g), RoleClears(order)) ==
      JObj(g["players" := JObj(ClearSome(g["players"].fields, Elems(order)))])
    decreases |order|
  {
    var pf := g["players"].fields;
    var done := Elems(order);
    if order == [] {
      assert RoleClears(order) == [];
      assert done == {};
      assert ClearSome(pf, {}) == pf;
      assert g["players" := JObj(pf)] == g;
    } else {
      var front := order[..|order| - 1];
      var p := order[|order| - 1];
      ApplyRoleClears(g, front);
      ElemsSnoc(order);
      var u := RoleClears(order);
      assert u[..|u| - 1] == RoleClears(front);
      assert u[|u| - 1] == (RolePath(p), JNull);
      RoleClearStep(g, Elems(front), p);
    }
  }

  /** One more `players/P/role: null` entry adds P to the cleared ids. */
  lemma RoleClearStep(g: map<string, Json>, done: set<string>, p: string)
    requires "players" in g && g["players"].JObj? && p in g["players"].fields && IsSegment(p)
    ensures var pf := g["players"].fields;
      SetAt(JObj(g["players" := JObj(ClearSome(pf, done))]), SplitPath(RolePath(p)), JNull)
        == JObj(g["players" := JObj(ClearSome(pf, done + {p}))])
  {
    var pf := g["players"].fields;
    SplitJoin(["players", p, "role"]);
    var g1 := g["players" := JObj(ClearSome(pf, done))];
    ClearOneRole(g1, ClearSome(pf, done), p);
    ClearSomeStep(pf, done, p);
    assert g1["players" := JObj(ClearSome(pf, done + {p}))] == g["players" := JObj(ClearSome(pf, done + {p}))];
  }

  /** The ids listed in `order`. */
  function Elems(order: seq<string>): (e: set<string>)
    ensures forall p :: p in e <==> p in order
  {
    set i | 0 <= i < |order| :: order[i]
  }

  lemma ElemsSnoc(order: seq<string>)
    requires order != []
    ensures Elems(order) == Elems(order[..|order| - 1]) + {order[|order| - 1]}
  {
    assert order == order[..|order| - 1] + [order[|order| - 1]];
  }

  /** The update `resetRoom` sends, applied to the room, has the effect described above. */
  lemma ApplyResetUpdates(room: Json, order: seq<string>)
    requires forall i :: 0 <= i < |order| ==> IsSegment(order[i])
    requires forall p :: p in order <==> p in KeysOf(PlayersOf(room))
    requires |order| == |KeysOf(PlayersOf(room))|
    ensures ApplyUpdates(room, ResetFields + RoleClears(order)) == ResetEffect(room)
  {
    ApplyUpdatesAppend(room, ResetFields, RoleClears(order));
    ApplyResetFields(room);
    var g := (FieldsOf(room) - ClearedFields)["status" := JStr("LOBBY")];
    if "players" in g && g["players"].JObj? {
      var pf := g["players"].fields;
      assert forall i :: 0 <= i < |order| ==> order[i] in order;
      ApplyRoleClears(g, order);
      assert Elems(order) == pf.Keys;
      ClearAllIsClearRoles(pf, Elems(order));
    } else {
      NoPlayersObject(room);
    }
  }

  /** On a well-formed room the update has the reset's effect and keeps the room well formed. */
  lemma ResetUpdatesEffect(room: Json, order: seq<string>)
    requires WellFormedRoom(room) || room == JObj(map[])
    requires forall p :: p in order <==> p in KeysOf(PlayersOf(room))
    requires |order| == |KeysOf(PlayersOf(room))|
    ensures ApplyUpdates(room, ResetFields + RoleClears(order)) == ResetEffect(room)
    ensures WellFormedRoom(ResetEffect(room))
  {
    assert forall i :: 0 <= i < |order| ==> order[i] in order;
    ApplyResetUpdates(room, order);
    ResetEffectFields(room);
  }

  /** The room stored under `roomId`, or the empty object an update under a missing room starts from. */
  function StoredRoom(rooms: map<string, Json>, roomId: string): Json {
    if roomId in rooms then rooms[roomId] else JObj(map[])
  }

  /** Resetting one room of a database whose rooms are well formed keeps them well formed. */
  lemma ResetStoredRoom(rooms: map<string, Json>, roomId: string, order: seq<string>)
    requires forall r :: r in rooms ==> WellFormedRoom(rooms[r])
    requires forall p :: p in order <==> p in KeysOf(RoomPlayers(rooms, roomId))
    requires |order| == |KeysOf(RoomPlayers(rooms, roomId))|
    ensures ApplyUpdates(StoredRoom(rooms, roomId), ResetFields + RoleClears(order)) == ResetEffect(StoredRoom(rooms, roomId))
    ensures var after := rooms[roomId := ResetEffect(StoredRoom(rooms, roomId))];
      forall r :: r in after ==> WellFormedRoom(after[r])
  {
    var room := StoredRoom(rooms, roomId);
    assert RoomPlayers(rooms, roomId) == PlayersOf(room);
    ResetUpdatesEffect(room, order);
  }

  lemma NoPlayersObject(room: Json)
    requires var g := (FieldsOf(room) - ClearedFields)["status" := JStr("LOBBY")];
      !("players" in g && g["players"].JObj?)
    ensures KeysOf(PlayersOf(room)) == {}
  {
    if "players" in FieldsOf(room) {
      assert ((FieldsOf(room) - ClearedFields)["status" := JStr("LOBBY")])["players"] == FieldsOf(room)["players"];
    }
  }

  lemma ClearAllIsClearRoles(players: map<string, Json>, done: set<string>)
    requires done == players.Keys
    ensures ClearSome(players, done) == ClearRoles(players)
  {
  }

  /** The room's players object as `getRoomPlayers` reads it for a stored room. */
  function PlayersOf(room: Json): Json {
    if "players" in FieldsOf(room) then FieldsOf(room)["players"] else JObj(map[])
  }

  /**
   * `resetRoom`'s update map: the five room-level entries, then one
   * `players/P/role` entry per key of the players object it read.
   * `order` is the order the keys were visited in.
   */
  method ResetRoomUpdates(players: Json) returns (updates: seq<(string, Json)>, ghost order: seq<string>)
    ensures updates == ResetFields + RoleClears(order)
    ensures forall p :: p in order <==> p in KeysOf(players)
    ensures |order| == |KeysOf(players)|
    ensures |updates| == |ResetFields| + |order|
  {
    updates := ResetFields;
    order := [];
    var remaining := KeysOf(players);
    while remaining != {}
      invariant remaining <= KeysOf(players)
      invariant forall p :: p in KeysOf(players) <==> p in remaining || p in order
      invariant forall p :: p in order ==> p !in remaining
      invariant |order| + |remaining| == |KeysOf(players)|
      invariant updates == ResetFields + RoleClears(order)
      decreases remaining
    {
      var p :| p in remaining;
      assert (order + [p])[..|order + [p]| - 1] == order;
      updates := updates + [(RolePath(p), JNull)];
      order := order + [p];
      remaining := remaining - {p};
    }
  }

  /** A room value the database can hold: an object whose player keys are keys. */
  predicate WellFormedRoom(room: Json) {
    && room.JObj?
    && forall p :: p in KeysOf(PlayersOf(room)) ==> IsSegment(p)
  }

  /** Writing a record at `players/P` of a room. */
  lemma SetPlayerAt(room: Json, playerId: string, record: Json)
    requires record != JNull
    ensures SetAt(room, ["players", playerId], record) ==
      JObj(FieldsOf(room)["players" := JObj(FieldsOf(PlayersOf(room))[playerId := record])])
  {
    assert ["players", playerId][1..] == [playerId];
    assert [playerId][1..] == [];
    var child := if "players" in FieldsOf(room) then FieldsOf(room)["players"] else JNull;
    assert FieldsOf(child) == FieldsOf(PlayersOf(room));
    var grandchild := if playerId in FieldsOf(child) then FieldsOf(child)[playerId] else JNull;
    assert SetAt(grandchild, [], record) == record;
    assert SetAt(child, [playerId], record) == JObj(FieldsOf(child)[playerId := record]);
  }

  class Database {
    var rooms: map<string, Json>

    predicate Valid()
      reads this
    {
      forall r :: r in rooms ==> WellFormedRoom(rooms[r])
    }

    constructor()
      ensures rooms == map[] && Valid()
    {
      rooms := map[];
    }

    /** `isRoomCodeTaken`: something is stored at `rooms/code`, so `getRoom` finds a room there. */
    predicate IsRoomCodeTaken(code: string): (taken: bool)
      reads this
      ensures taken <==> GetRoom(rooms, code).Some?
    {
      code in rooms
    }

    /** `initializeRoomSchema`: the schema replaces whatever was stored for the room. */
    method InitializeRoomSchema(roomId: string, now: int)
      requires Valid()
      modifies this
      ensures Valid()
      ensures rooms == old(rooms)[roomId := Schema(now)]
    {
      rooms := rooms[roomId := Schema(now)];
    }

    /** `addPlayerToRoom`: sets the record at `rooms/R/players/P`; a missing room is created. */
    method AddPlayerToRoom(roomId: string, playerId: string, record: Json)
      requires Valid() && IsSegment(playerId) && record != JNull
      modifies this
      ensures Valid()
      ensures rooms == old(rooms)[roomId := SetAt(if roomId in old(rooms) then old(rooms)[roomId] else JObj(map[]),
                                                  ["players", playerId], record)]
    {
      var room := if roomId in rooms then rooms[roomId] else JObj(map[]);
      SetPlayerAt(room, playerId, record);
      assert WellFormedRoom(room);
      rooms := rooms[roomId := SetAt(room, ["players", playerId], record)];
    }

    /**
     * `resetRoom`: read the players, build the update map, apply it at
     * `rooms/R`. Under a missing room the update creates one holding
     * only `status`.
     */
    method ResetRoom(roomId: string)
      requires Valid()
      modifies this
      ensures Valid()
      ensures rooms == old(rooms)[roomId := ResetEffect(if roomId in old(rooms) then old(rooms)[roomId] else JObj(map[]))]
    {
      var players := RoomPlayers(rooms, roomId);
      var updates, order := ResetRoomUpdates(players);
      var room := StoredRoom(rooms, roomId);
      ResetStoredRoom(rooms, roomId, order);
      rooms := rooms[roomId := ApplyUpdates(room, updates)];
    }
  }

  /**
   * `generateUniqueRoomCode`: draw a code, count the attempt, give up once
   * the count passes ten, ask the database whether the code is taken, and
   * repeat while it is. `checks` counts the taken-queries made.
   */
  method GenerateUniqueRoomCode(db: Database, draws: seq<CodeDraw>) returns (r: Result<string>, checks: nat)
    requires ValidDraws(draws)
    ensures r == UniqueCodeFrom(draws, db.rooms.Keys, 0)
    ensures checks <= MaxAttempts
    ensures r.Failure? ==> checks == MaxAttempts
    ensures r.Success? ==> 1 <= checks && !db.IsRoomCodeTaken(r.value)
  {
    var code := GenerateRoomCode(draws[0]);
    var attempts := 1;
    checks := 1;
    var taken := db.IsRoomCodeTaken(code);
    while taken
      invariant 1 <= attempts <= MaxAttempts && checks == attempts
      invariant code == CodeOf(draws[attempts - 1])
      invariant taken <==> code in db.rooms
      invariant UniqueCodeFrom(draws, db.rooms.Keys, 0) == UniqueCodeFrom(draws, db.rooms.Keys, attempts - 1)
      decreases MaxAttempts - attempts
    {
      code := GenerateRoomCode(draws[attempts]);
      attempts := attempts + 1;
      if attempts > MaxAttempts {
        return Failure(UniqueCodeError), checks;
      }
      checks := checks + 1;
      taken := db.IsRoomCodeTaken(code);
    }
    r := Success(code);
  }
}

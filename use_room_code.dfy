/**
 * The room-code hooks: checking whether a typed code is free, and joining a
 * room by code. Codes are normalised as `trim().toUpperCase()` before they
 * reach the database.
 */
module RoomCode {
  import opened Common
  import opened RealtimeDatabase

  // ---------------------------------------------------------------------
  // Text

  /** The characters `String.prototype.trim` removes: white space and line terminators. */
  predicate IsWhitespace(c: char) {
    var n := c as int;
    || 9 <= n <= 13 || n == 0x20 || n == 0xA0 || n == 0x1680 || 0x2000 <= n <= 0x200A
    || n == 0x2028 || n == 0x2029 || n == 0x202F || n == 0x205F || n == 0x3000 || n == 0xFEFF
  }

  function TrimStart(s: string): (t: string)
    ensures |t| <= |s| && t == s[|s| - |t|..]
    ensures forall i :: 0 <= i < |s| - |t| ==> IsWhitespace(s[i])
    ensures t != [] ==> !IsWhitespace(t[0])
  {
    if s != [] && IsWhitespace(s[0]) then TrimStart(s[1..]) else s
  }

  function TrimEnd(s: string): (t: string)
    ensures |t| <= |s| && t == s[..|t|]
    ensures forall i :: |t| <= i < |s| ==> IsWhitespace(s[i])
    ensures t != [] ==> !IsWhitespace(t[|t| - 1])
  {
    if s != [] && IsWhitespace(s[|s| - 1]) then TrimEnd(s[..|s| - 1]) else s
  }

  lemma PrefixOfSuffix(s: string, i: nat, k: nat)
    requires i + k <= |s|
    ensures s[i..][..k] == s[i..i + k]
  {
  }

  /** `t` is `s` with white space only before index `i` and after `t`. */
  predicate IsTrimOf(s: string, t: string, i: int) {
    && 0 <= i && i + |t| <= |s| && s[i..i + |t|] == t
    && (forall j :: 0 <= j < i ==> IsWhitespace(s[j]))
    && (forall j :: i + |t| <= j < |s| ==> IsWhitespace(s[j]))
  }

  /** `s.trim()`: the slice of `s` between its leading and its trailing white space. */
  function Trim(s: string): (t: string)
    ensures t != [] ==> !IsWhitespace(t[0]) && !IsWhitespace(t[|t| - 1])
    ensures exists i :: IsTrimOf(s, t, i)
  {
    var front := TrimStart(s);
    var t := TrimEnd(front);
    TrimmedSlice(s, front, t);
    t
  }

  /** A suffix after leading white space, cut before trailing white space, is a trim. */
  lemma TrimmedSlice(s: string, front: string, t: string)
    requires |front| <= |s| && front == s[|s| - |front|..]
    requires forall j :: 0 <= j < |s| - |front| ==> IsWhitespace(s[j])
    requires |t| <= |front| && t == front[..|t|]
    requires forall j :: |t| <= j < |front| ==> IsWhitespace(front[j])
    ensures IsTrimOf(s, t, |s| - |front|)
  {
    var i := |s| - |front|;
    PrefixOfSuffix(s, i, |t|);
    forall j | i + |t| <= j < |s| ensures IsWhitespace(s[j]) {
      assert s[j] == front[j - i];
    }
  }

  /** A code is refused as empty exactly when it is nothing but white space. */
  lemma TrimEmptyIffBlank(s: string)
    ensures Trim(s) == "" <==> forall i :: 0 <= i < |s| ==> IsWhitespace(s[i])
  {
    var t := Trim(s);
    var k :| IsTrimOf(s, t, k);
    if t != "" {
      assert s[k] == t[0];
    }
  }

  /** A string without white space at either end is its own trim. */
  lemma TrimUnchanged(s: string)
    requires s != [] ==> !IsWhitespace(s[0]) && !IsWhitespace(s[|s| - 1])
    ensures Trim(s) == s
  {
  }

  function UpperChar(c: char): (u: char)
    ensures 'a' <= c <= 'z' ==> u as int == c as int - 32
    ensures !('a' <= c <= 'z') ==> u == c
  {
    if 'a' <= c <= 'z' then (c as int - 32) as char else c
  }

  /** `toUpperCase` on the ASCII letters. */
  function ToUpper(s: string): (t: string)
    ensures |t| == |s|
    ensures forall i :: 0 <= i < |s| ==> t[i] == UpperChar(s[i])
  {
    seq(|s|, i requires 0 <= i < |s| => UpperChar(s[i]))
  }

  /** Upper-casing is idempotent and never creates or removes white space. */
  lemma ToUpperFacts(s: string)
    ensures ToUpper(ToUpper(s)) == ToUpper(s)
    ensures forall i :: 0 <= i < |s| ==> (IsWhitespace(ToUpper(s)[i]) <==> IsWhitespace(s[i]))
  {
  }

  /**
   * `code.trim().toUpperCase()`: no longer than the code, empty exactly for
   * a blank code, and with no lower-case ASCII letter.
   */
  function Normalize(code: string): (n: string)
    ensures |n| <= |code|
    ensures n == "" <==> forall i :: 0 <= i < |code| ==> IsWhitespace(code[i])
    ensures forall i :: 0 <= i < |n| ==> !('a' <= n[i] <= 'z')
  {
    var t := Trim(code);
    TrimEmptyIffBlank(code);
    ToUpperFacts(t);
    ToUpper(t)
  }

  lemma NormalizeIdempotent(code: string)
    ensures Normalize(Normalize(code)) == Normalize(code)
  {
    var t := Trim(code);
    ToUpperFacts(t);
    TrimUnchanged(ToUpper(t));
  }

  /** A string made of upper-case letters and digits: untouched by normalising, and a key. */
  lemma CodeCharsAreNormal(code: string)
    requires forall i :: 0 <= i < |code| ==> IsCodeChar(code[i])
    ensures Trim(code) == code
    ensures Normalize(code) == code
    ensures IsSegment(code)
  {
    CodeCharsTrimmed(code);
    UpperCodeChars(code);
    CodeCharsAreSegment(code);
  }

  lemma CodeCharsTrimmed(code: string)
    requires forall i :: 0 <= i < |code| ==> IsCodeChar(code[i])
    ensures Trim(code) == code
  {
    TrimUnchanged(code);
  }

  lemma UpperCodeChars(code: string)
    requires forall i :: 0 <= i < |code| ==> IsCodeChar(code[i])
    ensures ToUpper(code) == code
  {
    assert forall i :: 0 <= i < |code| ==> ToUpper(code)[i] == code[i];
  }

  lemma CodeCharsAreSegment(code: string)
    requires forall i :: 0 <= i < |code| ==> IsCodeChar(code[i])
    ensures IsSegment(code)
  {
  }

  /** Every generated room code is already in normal form. */
  lemma RoomCodesAreNormal(code: string)
    requires IsRoomCode(code)
    ensures Normalize(code) == code
    ensures IsSegment(code)
  {
    forall i | 0 <= i < |code| ensures IsCodeChar(code[i]) {
      AlphabetChars(code[i]);
    }
    CodeCharsAreNormal(code);
  }

  // ---------------------------------------------------------------------
  // Joining by code

  /** JavaScript truthiness of a stored value. */
  predicate Truthy(v: Json) {
    match v
    case JNull => false
    case JBool(b) => b
    case JNum(n) => n != 0
    case JStr(s) => s != ""
    case JObj(_) => true
  }

  /** `room.metadata?.status === 'LOBBY'` on the room `getRoom` returned. */
  predicate InLobby(room: map<string, Json>) {
    "metadata" in room && "status" in FieldsOf(room["metadata"]) && FieldsOf(room["metadata"])["status"] == JStr("LOBBY")
  }

  /** `room.players?.[uid]` is truthy. */
  predicate AlreadyIn(room: map<string, Json>, uid: string) {
    "players" in room && uid in FieldsOf(room["players"]) && Truthy(FieldsOf(room["players"])[uid])
  }

  /** The checks `joinRoom` makes inside its `try` on the normalised code, in order. */
  function JoinCodeError(rooms: map<string, Json>, code: string): (e: Option<string>)
    ensures e.None? <==> code in rooms && InLobby(GetRoom(rooms, code).value)
    ensures code !in rooms ==> e == Some("Room not found. Please check the room code and try again.")
    ensures code in rooms && !InLobby(GetRoom(rooms, code).value) ==> e == Some("Cannot join room. Game has already started.")
  {
    match GetRoom(rooms, code)
    case None => Some("Room not found. Please check the room code and try again.")
    case Some(room) => if !InLobby(room) then Some("Cannot join room. Game has already started.") else None
  }

  /** The record written for a player joining by code. */
  function JoinRecord(uid: string, isoNow: string): Json {
    JObj(map["id" := JStr(uid), "name" := JStr("Anonymous Player"), "isReady" := JBool(false), "joinedAt" := JStr(isoNow)])
  }

  /** The rooms after a successful join: a player already in the room is not written again. */
  function Joined(rooms: map<string, Json>, code: string, uid: string, isoNow: string): map<string, Json>
    requires code in rooms
  {
    if AlreadyIn(GetRoom(rooms, code).value, uid) then rooms
    else rooms[code := SetAt(rooms[code], ["players", uid], JoinRecord(uid, isoNow))]
  }

  /**
   * A join writes only the caller's record: the room stays in the lobby,
   * the caller is then in it, every other player and field is unchanged,
   * and joining again writes nothing.
   */
  lemma JoinedFacts(rooms: map<string, Json>, code: string, uid: string, isoNow: string, later: string)
    requires JoinCodeError(rooms, code).None?
    ensures var after := Joined(rooms, code, uid, isoNow);
      && after.Keys == rooms.Keys
      && (forall r :: r in rooms && r != code ==> after[r] == rooms[r])
      && JoinCodeError(after, code).None?
      && AlreadyIn(GetRoom(after, code).value, uid)
      && (forall k :: k in FieldsOf(rooms[code]) && k != "players" ==> FieldsOf(after[code])[k] == FieldsOf(rooms[code])[k])
      && (forall p :: p in FieldsOf(PlayersOf(rooms[code])) && p != uid ==>
            p in FieldsOf(PlayersOf(after[code])) && FieldsOf(PlayersOf(after[code]))[p] == FieldsOf(PlayersOf(rooms[code]))[p])
      && Joined(after, code, uid, later) == after
  {
    if !AlreadyIn(GetRoom(rooms, code).value, uid) {
      SetPlayerAt(rooms[code], uid, JoinRecord(uid, isoNow));
    }
  }

  /** A room written by `initializeRoomSchema` has no metadata, so joining it by code is refused. */
  lemma InitializedRoomRefusesJoin(rooms: map<string, Json>, code: string, now: int)
    ensures JoinCodeError(rooms[code := Schema(now)], code) == Some("Cannot join room. Game has already started.")
  {
  }

  /** `useRoomCode`: the availability check. */
  class RoomCodeHook {
    const db: Database
    var loading: bool
    var error: Option<string>

    constructor(db: Database)
      ensures this.db == db && !loading && error.None?
    {
      this.db := db;
      loading := false;
      error := None;
    }

    /**
     * `validateCode(code)`: a blank code is refused without asking the
     * database; otherwise the code is free when nothing is stored under
     * its normal form.
     */
    method ValidateCode(code: string) returns (available: bool)
      requires Trim(code) != "" ==> IsSegment(Normalize(code))
      modifies this
      ensures Trim(code) == "" ==> !available && loading == old(loading) && error == old(error)
      ensures Trim(code) != "" ==> available == !db.IsRoomCodeTaken(Normalize(code)) && !loading && error.None?
    {
      if code == "" || Trim(code) == "" {
        return false;
      }
      loading := true;
      error := None;
      var normalizedCode := Normalize(code);
      var isTaken := db.IsRoomCodeTaken(normalizedCode);
      available := !isTaken;
      loading := false;
    }
  }

  /** `useJoinRoom`. `location` is where the hook last navigated. */
  class JoinRoomHook {
    const db: Database
    /** The signed-in user's uid, if any. */
    const user: Option<string>
    var loading: bool
    var error: Option<string>
    var location: Option<string>

    constructor(db: Database, user: Option<string>)
      ensures this.db == db && this.user == user
      ensures !loading && error.None? && location.None?
    {
      this.db := db;
      this.user := user;
      loading := false;
      error := None;
      location := None;
    }

    /**
     * `joinRoom(roomCode)`: the two guards before the `try` throw without
     * touching the hook's state; inside it the room is read under the
     * normalised code, checked, and the caller's record added unless they
     * are already in, and the hook navigates to the room.
     */
    method JoinRoom(roomCode: string, isoNow: string) returns (o: Outcome)
      requires db.Valid()
      requires user.Some? ==> IsSegment(user.value)
      requires Trim(roomCode) != "" ==> IsSegment(Normalize(roomCode))
      modifies this, db
      ensures db.Valid()
      ensures user.None? ==>
        && o == Failed("User must be authenticated to join a room")
        && db.rooms == old(db.rooms) && unchanged(this)
      ensures user.Some? && Trim(roomCode) == "" ==>
        && o == Failed("Room code is required")
        && db.rooms == old(db.rooms) && unchanged(this)
      ensures user.Some? && Trim(roomCode) != "" ==>
        var code := Normalize(roomCode);
        var e := JoinCodeError(old(db.rooms), code);
        && !loading && error == e && o == OutcomeOf(e)
        && (e.Some? ==> db.rooms == old(db.rooms) && location == old(location))
        && (e.None? ==> db.rooms == Joined(old(db.rooms), code, user.value, isoNow) && location == Some("/room/" + code))
    {
      if user.None? {
        return Failed("User must be authenticated to join a room");
      }
      if roomCode == "" || Trim(roomCode) == "" {
        return Failed("Room code is required");
      }
      loading := true;
      error := None;

      var normalizedCode := Normalize(roomCode);
      ghost var e := JoinCodeError(db.rooms, normalizedCode);
      var room := GetRoom(db.rooms, normalizedCode);
      if room.None? {
        error := Some("Room not found. Please check the room code and try again.");
        loading := false;
        assert error == e;
        return Failed(error.value);
      }
      if !InLobby(room.value) {
        error := Some("Cannot join room. Game has already started.");
        loading := false;
        assert error == e;
        return Failed(error.value);
      }
      assert e.None?;
      if AlreadyIn(room.value, user.value) {
        location := Some("/room/" + normalizedCode);
        loading := false;
        return Done;
      }
      db.AddPlayerToRoom(normalizedCode, user.value, JoinRecord(user.value, isoNow));
      location := Some("/room/" + normalizedCode);
      loading := false;
      return Done;
    }
  }
}

/**
 * The room hook: the signed-in user's view of one room and the actions that
 * guard and then write the room document. Each action checks an ordered
 * chain of preconditions and throws the first one's message; the messages
 * are given by the `...Error` functions, and the writes by the methods of
 * `RoomClient`.
 *
 * An error thrown before an action's `try` leaves the hook's `error` state
 * alone; one thrown inside it is also recorded there. Store writes do not
 * fail in this model, so of the actions only `JoinRoom` records an error.
 */
module RoomHook {
  import opened Common
  import opened GameTypes
  import opened GameLogic
  import opened RoomStore

  // ---------------------------------------------------------------------
  // Guard chains

  /** `investigatePlayer`'s checks, in order; `None` when all pass. */
  function InvestigateError(room: Option<RoomDoc>, user: Option<string>, targetId: string): (e: Option<string>)
    ensures e.None? <==>
      && room.Some? && user.Some?
      && room.value.metadata.currentPresidentId == Some(user.value)
      && HasPlayer(room.value.players, targetId)
      && targetId != user.value
      && targetId !in room.value.investigations
      && targetId in room.value.roles
  {
    if room.None? || user.None? then Some("No room or user")
    else if room.value.metadata.currentPresidentId != Some(user.value) then Some("Only President can investigate players")
    else if !HasPlayer(room.value.players, targetId) then Some("Target player not found")
    else if targetId == user.value then Some("Cannot investigate yourself")
    else if targetId in room.value.investigations then Some("Player already investigated")
    else if targetId !in room.value.roles then Some("Target role not found - game may not be started")
    else None
  }

  /** The record `investigatePlayer` stores for the president `uid`. */
  function InvestigationFor(uid: string, doc: RoomDoc, targetId: string, idStamp: int, now: int): (rec: InvestigationRecord)
    requires targetId in doc.roles
    ensures rec.result == PartyFromRole(doc.roles[targetId])
    ensures rec.investigatedBy == uid && rec.targetId == targetId && rec.investigatedAt == now
    ensures rec.investigationId == uid + "_" + IntToString(idStamp)
  {
    InvestigationRecord(uid + "_" + IntToString(idStamp), PartyFromRole(doc.roles[targetId]), uid, now, targetId)
  }

  /** The document after a successful investigation of `targetId`. */
  function Investigated(doc: RoomDoc, uid: string, targetId: string, idStamp: int, now: int): (d: RoomDoc)
    requires targetId in doc.roles
    ensures d.investigations.Keys == doc.investigations.Keys + {targetId}
    ensures d.investigations[targetId] == InvestigationFor(uid, doc, targetId, idStamp, now)
    ensures forall t :: t in doc.investigations && t != targetId ==> d.investigations[t] == doc.investigations[t]
    ensures d.(investigations := doc.investigations) == doc
  {
    doc.(investigations := doc.investigations[targetId := InvestigationFor(uid, doc, targetId, idStamp, now)])
  }

  /**
   * The checks come in order: no room or user hides everything else, a
   * target with no player record is reported before a self-pick, a
   * president who picks themselves is told so before anything about records,
   * and a target already recorded is reported before a missing role.
   */
  lemma InvestigateErrorOrder(room: Option<RoomDoc>, user: Option<string>, targetId: string)
    ensures room.None? || user.None? ==> InvestigateError(room, user, targetId) == Some("No room or user")
    ensures room.Some? && user.Some? && room.value.metadata.currentPresidentId != Some(user.value) ==>
      InvestigateError(room, user, targetId) == Some("Only President can investigate players")
    ensures (room.Some? && user.Some? && room.value.metadata.currentPresidentId == Some(user.value)
             && targetId == user.value && HasPlayer(room.value.players, targetId)) ==>
      InvestigateError(room, user, targetId) == Some("Cannot investigate yourself")
    ensures (room.Some? && user.Some? && room.value.metadata.currentPresidentId == Some(user.value)
             && targetId != user.value && HasPlayer(room.value.players, targetId)
             && targetId in room.value.investigations) ==>
      InvestigateError(room, user, targetId) == Some("Player already investigated")
    ensures (room.Some? && user.Some? && room.value.metadata.currentPresidentId == Some(user.value)
             && !HasPlayer(room.value.players, targetId)) ==>
      InvestigateError(room, user, targetId) == Some("Target player not found")
    ensures (room.Some? && user.Some? && room.value.metadata.currentPresidentId == Some(user.value)
             && HasPlayer(room.value.players, targetId) && targetId != user.value
             && targetId !in room.value.investigations && targetId !in room.value.roles) ==>
      InvestigateError(room, user, targetId) == Some("Target role not found - game may not be started")
  {
  }

  /** Investigating one player changes nothing about whether another may be investigated. */
  lemma InvestigationIsPerTarget(doc: RoomDoc, uid: string, first: string, second: string, idStamp: int, now: int)
    requires first in doc.roles && first != second
    ensures InvestigateError(Some(Investigated(doc, uid, first, idStamp, now)), Some(uid), second) ==
            InvestigateError(Some(doc), Some(uid), second)
  {
  }

  /** Investigating the same player twice is refused the second time. */
  lemma ReinvestigationRefused(doc: RoomDoc, uid: string, targetId: string, idStamp: int, now: int)
    requires InvestigateError(Some(doc), Some(uid), targetId).None?
    ensures InvestigateError(Some(Investigated(doc, uid, targetId, idStamp, now)), Some(uid), targetId) ==
            Some("Player already investigated")
  {
  }

  /** `startGame`'s checks, in order. */
  function StartError(room: Option<RoomDoc>, user: Option<string>): (e: Option<string>)
    ensures e.None? <==> (room.Some? && user.Some? && room.value.metadata.adminId == user.value
                          && 5 <= |room.value.players| <= 10)
    ensures room.None? || user.None? ==> e == Some("No room or user")
    ensures room.Some? && user.Some? && room.value.metadata.adminId != user.value ==>
      e == Some("Only admin can start the game")
    ensures room.Some? && user.Some? && room.value.metadata.adminId == user.value ==>
      e == CanStartGame(|room.value.players|).reason
  {
    if room.None? || user.None? then Some("No room or user")
    else if room.value.metadata.adminId != user.value then Some("Only admin can start the game")
    else
      var canStart := CanStartGame(|room.value.players|);
      if !canStart.canStart then Some(canStart.reason.GetOr("Cannot start game")) else None
  }

  /** The document once `startGame` has written the deal and the new metadata. */
  function Started(doc: RoomDoc, roles: map<string, Role>, now: int): (d: RoomDoc)
    requires doc.players != []
    ensures d.metadata.status == RoleReveal && d.metadata.startedAt == Some(now)
    ensures d.metadata.startingPlayerId == d.metadata.currentPresidentId == Some(doc.players[0].id)
    ensures d.roles == roles
    ensures d.players == doc.players && d.investigations == doc.investigations && d.id == doc.id
    ensures d.metadata.adminId == doc.metadata.adminId
    ensures d.(roles := doc.roles, metadata := doc.metadata) == doc
    ensures d.metadata.(status := doc.metadata.status, startedAt := doc.metadata.startedAt,
                        startingPlayerId := doc.metadata.startingPlayerId,
                        currentPresidentId := doc.metadata.currentPresidentId) == doc.metadata
  {
    var first := doc.players[0].id;
    doc.(roles := roles,
         metadata := doc.metadata.(status := RoleReveal, startedAt := Some(now),
                                   startingPlayerId := Some(first), currentPresidentId := Some(first)))
  }

  /** The roles `assignRoles` deals to the players of a room that may start, from the given picks. */
  function Deal(players: seq<Player>, picks: seq<nat>): map<string, Role>
    requires 5 <= |players| <= 10 && ValidPicks(picks, |players|)
  {
    Zip(players, Shuffle(DealtRoles(RoleDistribution(|players|).value), picks))
  }

  /** Such a deal validates for the room's player count and covers exactly its players. */
  lemma DealValidates(players: seq<Player>, picks: seq<nat>)
    requires 5 <= |players| <= 10 && DistinctIds(players) && ValidPicks(picks, |players|)
    ensures ValidationOf(Deal(players, picks), |players|).valid
    ensures Deal(players, picks).Keys == PlayerIdSet(players)
  {
    AssignedRolesValidate(players, picks);
  }

  /** `assignRoles` called on a room that may start: it succeeds with the deal. */
  method DealRoles(players: seq<Player>, picks: seq<nat>) returns (roles: map<string, Role>)
    requires 5 <= |players| <= 10 && ValidPicks(picks, |players|)
    ensures roles == Deal(players, picks)
  {
    var r := AssignRoles(players, picks);
    roles := r.value;
  }

  /** `joinRoom`'s checks on the room read from the store, in order. */
  function JoinError(rooms: map<string, RoomDoc>, roomId: string): (e: Option<string>)
    ensures e.None? <==> roomId in rooms && rooms[roomId].metadata.status == Lobby && |rooms[roomId].players| < 10
    ensures roomId !in rooms ==> e == Some("Room not found")
    ensures roomId in rooms && rooms[roomId].metadata.status != Lobby ==> e == Some("Cannot join a game in progress")
    ensures roomId in rooms && rooms[roomId].metadata.status == Lobby && |rooms[roomId].players| >= 10 ==>
      e == Some("Room is full")
  {
    if roomId !in rooms then Some("Room not found")
    else if rooms[roomId].metadata.status != Lobby then Some("Cannot join a game in progress")
    else if |rooms[roomId].players| >= 10 then Some("Room is full")
    else None
  }

  /** `resetGame`'s checks, in order. */
  function ResetError(room: Option<RoomDoc>, user: Option<string>): (e: Option<string>)
    ensures e.None? <==> (room.Some? && user.Some? &&
      (room.value.metadata.adminId == user.value || room.value.metadata.status == GameOver))
    ensures room.None? || user.None? ==> e == Some("No room or user")
    ensures (room.Some? && user.Some? && room.value.metadata.adminId != user.value
             && room.value.metadata.status != GameOver) ==> e == Some("Only admin can reset the game")
  {
    if room.None? || user.None? then Some("No room or user")
    else if room.value.metadata.adminId != user.value && room.value.metadata.status != GameOver then
      Some("Only admin can reset the game")
    else None
  }

  /** `removePlayerFromRoom`'s checks, in order. */
  function RemoveError(room: Option<RoomDoc>, user: Option<string>, playerId: string): (e: Option<string>)
    ensures e.None? <==> room.Some? && user.Some? && room.value.metadata.adminId == user.value && playerId != user.value
    ensures room.None? || user.None? ==> e == Some("No room or user")
    ensures room.Some? && user.Some? && room.value.metadata.adminId != user.value ==>
      e == Some("Only admin can remove players")
    ensures room.Some? && user.Some? && room.value.metadata.adminId == user.value && playerId == user.value ==>
      e == Some("Admin cannot remove themselves")
  {
    if room.None? || user.None? then Some("No room or user")
    else if room.value.metadata.adminId != user.value then Some("Only admin can remove players")
    else if playerId == user.value then Some("Admin cannot remove themselves")
    else None
  }

  /** `transferAdmin`'s checks, in order. */
  function TransferError(room: Option<RoomDoc>, user: Option<string>, playerId: string): (e: Option<string>)
    ensures e.None? <==> (room.Some? && user.Some? && room.value.metadata.adminId == user.value
                          && HasPlayer(room.value.players, playerId))
    ensures room.None? || user.None? ==> e == Some("No room or user")
    ensures room.Some? && user.Some? && room.value.metadata.adminId != user.value ==>
      e == Some("Only admin can transfer admin rights")
    ensures (room.Some? && user.Some? && room.value.metadata.adminId == user.value
             && !HasPlayer(room.value.players, playerId)) ==> e == Some("Player not found in room")
  {
    if room.None? || user.None? then Some("No room or user")
    else if room.value.metadata.adminId != user.value then Some("Only admin can transfer admin rights")
    else if !HasPlayer(room.value.players, playerId) then Some("Player not found in room")
    else None
  }

  /** The document after `leaveRoom` by `uid`, or `None` once the room is deleted. */
  function AfterLeave(doc: RoomDoc, uid: string): (d: Option<RoomDoc>)
    ensures d.None? <==> doc.metadata.adminId == uid && RemovePlayer(doc.players, uid) == []
    ensures d.Some? ==> d.value.players == RemovePlayer(doc.players, uid)
    ensures d.Some? && doc.metadata.adminId == uid ==>
      d.value.metadata.adminId == RemovePlayer(doc.players, uid)[0].id
    ensures d.Some? && doc.metadata.adminId != uid ==> d.value.metadata == doc.metadata
    ensures d.Some? ==> d.value.(players := doc.players, metadata := doc.metadata) == doc
    ensures d.Some? && doc.metadata.adminId == uid ==>
      d.value.metadata == doc.metadata.(adminId := RemovePlayer(doc.players, uid)[0].id)
  {
    var remaining := RemovePlayer(doc.players, uid);
    if doc.metadata.adminId != uid then Some(doc.(players := remaining))
    else if remaining != [] then Some(doc.(players := remaining, metadata := doc.metadata.(adminId := remaining[0].id)))
    else None
  }

  /** An admin who leaves hands the room to someone still in it, and nobody leaves a room twice. */
  lemma LeaveKeepsAdminInRoom(doc: RoomDoc, uid: string)
    requires AfterLeave(doc, uid).Some? && doc.metadata.adminId == uid
    ensures HasPlayer(AfterLeave(doc, uid).value.players, AfterLeave(doc, uid).value.metadata.adminId)
    ensures !HasPlayer(AfterLeave(doc, uid).value.players, uid)
  {
    RemovePlayerIds(doc.players, uid);
  }

  // ---------------------------------------------------------------------
  // The hook

  class RoomClient {
    const store: Store
    /** The signed-in user's uid, if any. */
    const user: Option<string>
    /** The room the hook is subscribed to. */
    var roomId: Option<string>
    var loading: bool
    var error: Option<string>

    constructor(store: Store, user: Option<string>, roomId: Option<string>)
      ensures this.store == store && this.user == user && this.roomId == roomId
      ensures !loading && error.None?
    {
      this.store := store;
      this.user := user;
      this.roomId := roomId;
      loading := false;
      error := None;
    }

    /** The subscribed room's current snapshot; `null` when there is none. */
    function Room(): (r: Option<RoomDoc>)
      reads this, store
      ensures r.Some? <==> roomId.Some? && roomId.value in store.rooms
      ensures r.Some? ==> r.value == store.rooms[roomId.value]
    {
      if roomId.Some? && roomId.value in store.rooms then Some(store.rooms[roomId.value]) else None
    }

    /** `isPlayerInRoom`: the uid is a key of the room's players object. */
    predicate IsPlayerInRoom(): (b: bool)
      reads this, store
      ensures b <==> user.Some? && Room().Some? && HasPlayer(Room().value.players, user.value)
    {
      if user.Some? && Room().Some? then
        HasPlayerIffKey(Room().value.players, user.value);
        user.value in PlayerIdSet(Room().value.players)
      else false
    }

    /** `joinRoom(targetRoomId, playerName)`. */
    method JoinRoom(targetRoomId: string, playerName: string, now: int) returns (o: Outcome)
      requires store.Valid()
      modifies this, store
      ensures store.Valid()
      ensures user.None? ==>
        && o == Failed("Must be authenticated to join a room")
        && store.rooms == old(store.rooms) && roomId == old(roomId)
        && error == old(error) && loading == old(loading)
      ensures user.Some? ==>
        && !loading
        && o == OutcomeOf(JoinError(old(store.rooms), targetRoomId))
        && error == JoinError(old(store.rooms), targetRoomId)
      ensures user.Some? && o.Failed? ==> store.rooms == old(store.rooms) && roomId == old(roomId)
      ensures user.Some? && o.Done? ==>
        && roomId == Some(targetRoomId)
        && store.rooms == old(store.rooms)[targetRoomId := old(store.rooms)[targetRoomId].(
             players := SetPlayer(old(store.rooms)[targetRoomId].players,
                                  Player(user.value, playerName, false, Millis(now))))]
    {
      if user.None? {
        return Failed("Must be authenticated to join a room");
      }
      loading := true;
      error := None;

      var e := JoinError(store.rooms, targetRoomId);
      if e.Some? {
        error := e;
        loading := false;
        return Failed(e.value);
      }
      store.AddPlayer(targetRoomId, Player(user.value, playerName, false, Millis(now)));
      roomId := Some(targetRoomId);
      loading := false;
      return Done;
    }

    /** `leaveRoom`: nothing happens without a room or a user. */
    method LeaveRoom()
      requires store.Valid()
      modifies store
      ensures store.Valid()
      ensures old(Room()).None? || user.None? ==> store.rooms == old(store.rooms)
      ensures old(Room()).Some? && user.Some? ==>
        var doc := old(Room()).value;
        match AfterLeave(doc, user.value)
        case None => store.rooms == old(store.rooms) - {roomId.value}
        case Some(d) => store.rooms == old(store.rooms)[roomId.value := d]
    {
      if roomId.None? || roomId.value !in store.rooms || user.None? {
        return;
      }
      var rid := roomId.value;
      var uid := user.value;
      var doc := store.rooms[rid];
      store.RemovePlayerRecord(rid, uid);
      if doc.metadata.adminId == uid {
        var remainingPlayers := RemovePlayer(doc.players, uid);
        if |remainingPlayers| > 0 {
          var d := store.rooms[rid];
          store.SetMetadata(rid, d.metadata.(adminId := remainingPlayers[0].id));
        } else {
          store.DeleteRoom(rid);
        }
      }
    }

    /** `startGame`: deals the roles and moves the room to ROLE_REVEAL. */
    method StartGame(picks: seq<nat>, now: int) returns (o: Outcome)
      requires store.Valid()
      requires Room().Some? ==> ValidPicks(picks, |Room().value.players|)
      modifies store
      ensures store.Valid()
      ensures o == OutcomeOf(StartError(old(Room()), user))
      ensures o.Failed? ==> store.rooms == old(store.rooms)
      ensures o.Done? ==>
        var doc := old(Room()).value;
        && store.rooms == old(store.rooms)[roomId.value := Started(doc, Deal(doc.players, picks), now)]
        && ValidationOf(Deal(doc.players, picks), |doc.players|).valid
        && Deal(doc.players, picks).Keys == PlayerIdSet(doc.players)
    {
      var e := StartError(Room(), user);
      if e.Some? {
        return Failed(e.value);
      }
      var rid := roomId.value;
      var doc := store.rooms[rid];
      var players := doc.players;
      var roles := DealRoles(players, picks);
      DealValidates(players, picks);
      WriteStarted(rid, roles, now);
      return Done;
    }

    /** The two writes of `startGame`: the roles, then the metadata of the started game. */
    method WriteStarted(rid: string, roles: map<string, Role>, now: int)
      requires store.Valid() && rid in store.rooms && store.rooms[rid].players != []
      modifies store
      ensures store.Valid()
      ensures store.rooms == old(store.rooms)[rid := Started(old(store.rooms)[rid], roles, now)]
    {
      var doc := store.rooms[rid];
      store.SetRoles(rid, roles);
      var first := doc.players[0].id;
      store.SetMetadata(rid, doc.metadata.(status := RoleReveal, startedAt := Some(now),
                                           startingPlayerId := Some(first), currentPresidentId := Some(first)));
    }

    /** `resetGame`: the admin, or anyone once the game is over, resets the room. */
    method ResetGame() returns (o: Outcome)
      requires store.Valid()
      modifies store
      ensures store.Valid()
      ensures o == OutcomeOf(ResetError(old(Room()), user))
      ensures o.Failed? ==> store.rooms == old(store.rooms)
      ensures o.Done? ==>
        store.rooms == old(store.rooms)[roomId.value := old(Room()).value.(investigations := map[])]
    {
      var e := ResetError(Room(), user);
      if e.Some? {
        return Failed(e.value);
      }
      store.ResetRoom(roomId.value);
      return Done;
    }

    /** `removePlayerFromRoom(playerId)`. */
    method RemovePlayerFromRoom(playerId: string) returns (o: Outcome)
      requires store.Valid()
      modifies store
      ensures store.Valid()
      ensures o == OutcomeOf(RemoveError(old(Room()), user, playerId))
      ensures o.Failed? ==> store.rooms == old(store.rooms)
      ensures o.Done? ==>
        store.rooms == old(store.rooms)[roomId.value :=
          old(Room()).value.(players := RemovePlayer(old(Room()).value.players, playerId))]
    {
      var e := RemoveError(Room(), user, playerId);
      if e.Some? {
        return Failed(e.value);
      }
      store.RemovePlayerRecord(roomId.value, playerId);
      return Done;
    }

    /** `transferAdmin(playerId)`. */
    method TransferAdmin(playerId: string) returns (o: Outcome)
      requires store.Valid()
      modifies store
      ensures store.Valid()
      ensures o == OutcomeOf(TransferError(old(Room()), user, playerId))
      ensures o.Failed? ==> store.rooms == old(store.rooms)
      ensures o.Done? ==>
        store.rooms == old(store.rooms)[roomId.value :=
          old(Room()).value.(metadata := old(Room()).value.metadata.(adminId := playerId))]
    {
      var e := TransferError(Room(), user, playerId);
      if e.Some? {
        return Failed(e.value);
      }
      var doc := store.rooms[roomId.value];
      store.SetMetadata(roomId.value, doc.metadata.(adminId := playerId));
      return Done;
    }

    /**
     * `investigatePlayer(targetId)`: the president stores what party the
     * target belongs to. `idStamp` and `now` are the two `Date.now()` readings.
     */
    method InvestigatePlayer(targetId: string, idStamp: int, now: int) returns (o: Outcome)
      requires store.Valid()
      modifies store
      ensures store.Valid()
      ensures o == OutcomeOf(InvestigateError(old(Room()), user, targetId))
      ensures o.Failed? ==> store.rooms == old(store.rooms)
      ensures o.Done? ==>
        store.rooms == old(store.rooms)[roomId.value := Investigated(old(Room()).value, user.value, targetId, idStamp, now)]
    {
      var e := InvestigateError(Room(), user, targetId);
      if e.Some? {
        return Failed(e.value);
      }
      var doc := store.rooms[roomId.value];
      var record := InvestigationFor(user.value, doc, targetId, idStamp, now);
      store.StoreInvestigation(roomId.value, targetId, record);
      return Done;
    }
  }
}

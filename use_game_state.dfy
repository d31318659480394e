/**
 * The game-state hook: what the signed-in user's screen derives from the
 * room snapshot (status, phase text, their own player, the president,
 * chancellor and admin flags, the policy counts) and the effect that
 * recomputes the players list and the visible roles and parties whenever
 * the room, the user's role or the user changes.
 */
module GameState {
  import opened Common
  import opened GameTypes
  import opened GameLogic

  /** `room?.metadata?.status || null`: a stored status is never the empty string. */
  function GameStatusOf(room: Option<RoomDoc>): (s: Option<string>)
    ensures s.None? <==> room.None?
    ensures s.Some? ==> ParseStatus(s.value) == Some(room.value.metadata.status)
  {
    if room.None? then None
    else
      StatusNameRoundTrip(room.value.metadata.status);
      Some(StatusName(room.value.metadata.status))
  }

  /** `getCurrentPhase()`: a missing (falsy) status reads as LOBBY, an unknown one as itself. */
  function CurrentPhase(gameStatus: Option<string>, isPresident: bool): (phase: string)
    ensures gameStatus.None? || gameStatus.value == "" ==> phase == "LOBBY"
    ensures gameStatus == Some("LOBBY") ==> phase == "Waiting for players"
    ensures gameStatus == Some("ROLE_REVEAL") ==> phase == "Reveal your secret role"
    ensures gameStatus == Some("GAME_OVER") ==> phase == "Game Over"
    ensures gameStatus == Some("VOTING") ==>
      phase == if isPresident then "Choose your Chancellor" else "Vote for the government"
    ensures gameStatus == Some("LEGISLATIVE") ==>
      phase == if isPresident then "Choose a policy" else "Chancellor is choosing..."
    ensures gameStatus == Some("EXECUTIVE_ACTION") ==>
      phase == if isPresident then "Execute your power" else "President is acting..."
    ensures gameStatus.Some? && gameStatus.value != "" && ParseStatus(gameStatus.value).None? ==>
      phase == gameStatus.value
  {
    if gameStatus.None? || gameStatus.value == "" then "LOBBY"
    else
      match gameStatus.value
      case "LOBBY" => "Waiting for players"
      case "ROLE_REVEAL" => "Reveal your secret role"
      case "VOTING" => if isPresident then "Choose your Chancellor" else "Vote for the government"
      case "LEGISLATIVE" => if isPresident then "Choose a policy" else "Chancellor is choosing..."
      case "EXECUTIVE_ACTION" => if isPresident then "Execute your power" else "President is acting..."
      case "GAME_OVER" => "Game Over"
      case _ => gameStatus.value
  }

  /** Only the three in-round phases depend on who is looking, and there the president reads something else. */
  lemma PhaseDependsOnPresidencyOnlyInRounds(room: Option<RoomDoc>)
    ensures GameStatusOf(room).Some? ==>
      var st := room.value.metadata.status;
      (CurrentPhase(GameStatusOf(room), true) != CurrentPhase(GameStatusOf(room), false) <==>
        st in {Voting, Legislative, ExecutiveAction})
  {
  }

  /** Without a room the phase is LOBBY whoever looks. */
  lemma NoRoomIsLobby(isPresident: bool)
    ensures CurrentPhase(GameStatusOf(None), isPresident) == "LOBBY"
  {
  }

  // ---------------------------------------------------------------------
  // The current player

  /**
   * `currentPlayer`: the user's record (absent when the user has no record
   * in the room, in which case the spread adds nothing), their role, the
   * party derived from it, and `isAlive`.
   */
  datatype CurrentPlayerView = CurrentPlayerView(record: Option<Player>, role: Option<Role>, party: Party, isAlive: bool)

  /** The JavaScript `players[uid]` lookup on the players object. */
  function Lookup(players: seq<Player>, id: string): (p: Option<Player>)
    ensures p.Some? <==> HasPlayer(players, id)
    ensures p.Some? ==> p.value in players && p.value.id == id
  {
    if players == [] then None
    else if players[|players| - 1].id == id then Some(players[|players| - 1])
    else
      var p := Lookup(players[..|players| - 1], id);
      if p.Some? then
        assert p.value in players;
        p
      else
        assert !HasPlayer(players, id) by {
          forall i | 0 <= i < |players| ensures players[i].id != id {
            if i < |players| - 1 {
              assert players[..|players| - 1][i] == players[i];
            }
          }
        }
        None
  }

  function CurrentPlayer(room: Option<RoomDoc>, user: Option<string>): (c: Option<CurrentPlayerView>)
    ensures c.Some? <==> room.Some? && user.Some?
    ensures c.Some? ==> c.value.role == Get(room.value.roles, user.value) && c.value.isAlive
    ensures c.Some? ==> (c.value.party == LiberalParty <==> c.value.role == Some(Liberal))
    ensures c.Some? ==> (c.value.record.Some? <==> HasPlayer(room.value.players, user.value))
    ensures c.Some? && c.value.record.Some? ==> c.value.record.value.id == user.value
  {
    if room.None? || user.None? then None
    else
      var role := Get(room.value.roles, user.value);
      Some(CurrentPlayerView(Lookup(room.value.players, user.value), role, PartyOf(role), true))
  }

  /** The user's own entry agrees with the entry the players list gives them. */
  lemma CurrentPlayerMatchesGamePlayers(doc: RoomDoc, uid: string, i: nat)
    requires i < |doc.players| && doc.players[i].id == uid
    ensures var c := CurrentPlayer(Some(doc), Some(uid)).value;
      var g := CreateGamePlayers(doc.players, doc.roles)[i];
      c.role == g.role && c.party == g.party && c.isAlive == g.isAlive
  {
  }

  // ---------------------------------------------------------------------
  // Flags and counts

  /** `room?.metadata?.currentPresidentId`. */
  function PresidentOf(room: Option<RoomDoc>): Option<string> {
    if room.None? then None else room.value.metadata.currentPresidentId
  }

  function ChancellorOf(room: Option<RoomDoc>): Option<string> {
    if room.None? then None else room.value.metadata.currentChancellorId
  }

  function AdminOf(room: Option<RoomDoc>): Option<string> {
    if room.None? then None else Some(room.value.metadata.adminId)
  }

  /** `===` on two possibly undefined ids: two undefineds are equal. */
  function IsPresident(room: Option<RoomDoc>, user: Option<string>): (b: bool)
    ensures room.Some? && user.Some? ==> (b <==> room.value.metadata.currentPresidentId == Some(user.value))
    ensures (room.None? || room.value.metadata.currentPresidentId.None?) ==> (b <==> user.None?)
  {
    PresidentOf(room) == user
  }

  function IsChancellor(room: Option<RoomDoc>, user: Option<string>): (b: bool)
    ensures room.Some? && user.Some? ==> (b <==> room.value.metadata.currentChancellorId == Some(user.value))
    ensures (room.None? || room.value.metadata.currentChancellorId.None?) ==> (b <==> user.None?)
  {
    ChancellorOf(room) == user
  }

  function IsAdmin(room: Option<RoomDoc>, user: Option<string>): (b: bool)
    ensures room.Some? && user.Some? ==> (b <==> room.value.metadata.adminId == user.value)
    ensures room.Some? && user.None? ==> !b
    ensures room.None? ==> (b <==> user.None?)
  {
    AdminOf(room) == user
  }

  /** In a room, a signed-in user is president and chancellor at once only if the metadata names them for both. */
  lemma PresidentAndChancellor(doc: RoomDoc, uid: string)
    requires IsPresident(Some(doc), Some(uid)) && IsChancellor(Some(doc), Some(uid))
    ensures doc.metadata.currentPresidentId == doc.metadata.currentChancellorId == Some(uid)
  {
  }

  /** `count || 0`: a missing count and a zero count both read as 0. */
  function PolicyCount(count: Option<int>): (n: int)
    ensures count.Some? ==> n == count.value
    ensures count.None? ==> n == 0
  {
    count.GetOr(0)
  }

  datatype EnactedPolicies = EnactedPolicies(liberal: int, fascist: int)

  function EnactedPoliciesOf(room: Option<RoomDoc>): (e: EnactedPolicies)
    ensures room.None? ==> e == EnactedPolicies(0, 0)
    ensures room.Some? ==>
      && e.liberal == PolicyCount(room.value.metadata.enactedLiberalPolicies)
      && e.fascist == PolicyCount(room.value.metadata.enactedFascistPolicies)
  {
    if room.None? then EnactedPolicies(0, 0)
    else EnactedPolicies(PolicyCount(room.value.metadata.enactedLiberalPolicies),
                         PolicyCount(room.value.metadata.enactedFascistPolicies))
  }

  // ---------------------------------------------------------------------
  // What a player sees of the room

  /** The ids of the room's players whose dealt role is one of `wanted`. */
  function RoomIdsWithRole(doc: RoomDoc, wanted: set<Role>): set<string> {
    set k | k in doc.roles && k in PlayerIdSet(doc.players) && doc.roles[k] in wanted
  }

  /** The players list built from the room names exactly the room's players holding a wanted role. */
  lemma GamePlayersWithRole(doc: RoomDoc, wanted: set<Role>)
    ensures IdsWithRoleIn(CreateGamePlayers(doc.players, doc.roles), wanted) == RoomIdsWithRole(doc, wanted)
  {
    var gs := CreateGamePlayers(doc.players, doc.roles);
    forall k | k in IdsWithRoleIn(gs, wanted) ensures k in RoomIdsWithRole(doc, wanted) {
      var i :| 0 <= i < |gs| && gs[i].role.Some? && gs[i].role.value in wanted && gs[i].Id() == k;
      assert doc.players[i].id == k;
    }
    forall k | k in RoomIdsWithRole(doc, wanted) ensures k in IdsWithRoleIn(gs, wanted) {
      var i :| 0 <= i < |doc.players| && doc.players[i].id == k;
      assert gs[i].Id() == k && gs[i].role == Some(doc.roles[k]);
    }
  }

  /** The ids on the screen of a user holding `role` in `doc`, as the recompute effect produces them. */
  function RoomView(doc: RoomDoc, uid: string, role: Role): Visibility {
    VisibleInformation(uid, role, CreateGamePlayers(doc.players, doc.roles), |doc.players|)
  }

  /**
   * A Liberal sees only themselves; a Fascist sees every Fascist and Hitler
   * in the room; Hitler sees the Fascists when fewer than 7 players are in
   * the room, and only themselves otherwise.
   */
  lemma RoomViewByRole(doc: RoomDoc, uid: string, role: Role)
    ensures role == Liberal ==> RoomView(doc, uid, role).roles.Keys == {uid}
    ensures role == Fascist ==> RoomView(doc, uid, role).roles.Keys == {uid} + RoomIdsWithRole(doc, {Fascist, Hitler})
    ensures role == Hitler && |doc.players| < 7 ==>
      RoomView(doc, uid, role).roles.Keys == {uid} + RoomIdsWithRole(doc, {Fascist})
    ensures role == Hitler && |doc.players| >= 7 ==> RoomView(doc, uid, role).roles.Keys == {uid}
    ensures RoomView(doc, uid, role).roles.Keys == RoomView(doc, uid, role).parties.Keys
  {
    var gs := CreateGamePlayers(doc.players, doc.roles);
    VisibleInformationShape(uid, role, gs, |doc.players|);
    match role
    case Liberal => LiberalSeesOnlySelf(uid, gs, |doc.players|);
    case Fascist =>
      FascistSeesTeam(uid, gs, |doc.players|);
      GamePlayersWithRole(doc, {Fascist, Hitler});
    case Hitler =>
      HitlerSees(uid, gs, |doc.players|);
      GamePlayersWithRole(doc, {Fascist});
  }

  /** The screen state the effect maintains. */
  class GameStateView {
    var visibleRoles: map<string, Role>
    var visibleParties: map<string, Party>
    var allPlayers: seq<GamePlayer>

    constructor()
      ensures visibleRoles == map[] && visibleParties == map[] && allPlayers == []
    {
      visibleRoles := map[];
      visibleParties := map[];
      allPlayers := [];
    }

    /**
     * The effect: without a room, a role for the user or a user everything
     * is cleared; otherwise the players list is rebuilt and the view is the
     * one `getVisibleInformation` gives for the user's role.
     */
    method Recompute(room: Option<RoomDoc>, user: Option<string>)
      modifies this
      ensures var role := if room.Some? && user.Some? then Get(room.value.roles, user.value) else None;
        if role.None? then
          visibleRoles == map[] && visibleParties == map[] && allPlayers == []
        else
          && allPlayers == CreateGamePlayers(room.value.players, room.value.roles)
          && Visibility(visibleRoles, visibleParties) == RoomView(room.value, user.value, role.value)
    {
      var current := CurrentPlayer(room, user);
      if room.None? || current.None? || current.value.role.None? || user.None? {
        visibleRoles := map[];
        visibleParties := map[];
        allPlayers := [];
        return;
      }
      var doc := room.value;
      var gamePlayers := CreateGamePlayers(doc.players, doc.roles);
      allPlayers := gamePlayers;
      visibleRoles, visibleParties := GetVisibleInformation(user.value, current.value.role.value, gamePlayers, |doc.players|);
    }
  }
}

/**
 * The game's vocabulary: roles, parties, players, the room document as the
 * hooks read it, the role distribution table and the knowledge rules.
 */
module GameTypes {
  import opened Common

  datatype GameStatus = Lobby | RoleReveal | Voting | Legislative | ExecutiveAction | GameOver

  /** The string the store holds for each status. */
  function StatusName(s: GameStatus): string {
    match s
    case Lobby => "LOBBY"
    case RoleReveal => "ROLE_REVEAL"
    case Voting => "VOTING"
    case Legislative => "LEGISLATIVE"
    case ExecutiveAction => "EXECUTIVE_ACTION"
    case GameOver => "GAME_OVER"
  }

  function ParseStatus(name: string): (r: Option<GameStatus>)
    ensures r.Some? ==> StatusName(r.value) == name
  {
    if name == "LOBBY" then Some(Lobby)
    else if name == "ROLE_REVEAL" then Some(RoleReveal)
    else if name == "VOTING" then Some(Voting)
    else if name == "LEGISLATIVE" then Some(Legislative)
    else if name == "EXECUTIVE_ACTION" then Some(ExecutiveAction)
    else if name == "GAME_OVER" then Some(GameOver)
    else None
  }

  lemma StatusNameRoundTrip(s: GameStatus)
    ensures ParseStatus(StatusName(s)) == Some(s)
  {
  }

  datatype Role = Liberal | Fascist | Hitler
  datatype Party = LiberalParty | FascistParty

  /**
   * When a player joined: `Date.now()` milliseconds in most writers, an ISO
   * date string where the join-by-code hook writes `new Date().toISOString()`.
   */
  datatype Timestamp = Millis(ms: int) | IsoDate(text: string)

  datatype Player = Player(id: string, name: string, isReady: bool, joinedAt: Timestamp)

  /** A player enriched with an optional role, a party and a liveness flag. */
  datatype GamePlayer = GamePlayer(player: Player, role: Option<Role>, party: Party, isAlive: bool) {
    function Id(): string { player.id }
  }

  datatype Metadata = Metadata(
    status: GameStatus,
    adminId: string,
    createdAt: int,
    startedAt: Option<int>,
    endedAt: Option<int>,
    startingPlayerId: Option<string>,
    currentPresidentId: Option<string>,
    currentChancellorId: Option<string>,
    enactedLiberalPolicies: Option<int>,
    enactedFascistPolicies: Option<int>,
    electionTracker: int)

  datatype InvestigationRecord = InvestigationRecord(
    investigationId: string,
    result: Party,
    investigatedBy: string,
    investigatedAt: int,
    targetId: string)

  /**
   * A room document. `players` is the store's `players` object, keyed by
   * player id, kept in the order its entries were added; an absent
   * `players` object is the empty sequence, and an absent `roles` or
   * `investigations` object is the empty map.
   */
  datatype RoomDoc = RoomDoc(
    id: string,
    metadata: Metadata,
    players: seq<Player>,
    roles: map<string, Role>,
    investigations: map<string, InvestigationRecord>)

  // ---------------------------------------------------------------------
  // The players object, seen as an ordered sequence of records

  function Ids(players: seq<Player>): (ids: seq<string>)
    ensures |ids| == |players|
    ensures forall i :: 0 <= i < |players| ==> ids[i] == players[i].id
  {
    if players == [] then [] else Ids(players[..|players| - 1]) + [players[|players| - 1].id]
  }

  predicate HasPlayer(players: seq<Player>, id: string) {
    exists i :: 0 <= i < |players| && players[i].id == id
  }

  /** The keys of the players object. */
  function PlayerIdSet(players: seq<Player>): set<string> {
    set i | 0 <= i < |players| :: players[i].id
  }

  lemma HasPlayerIffKey(players: seq<Player>, id: string)
    ensures HasPlayer(players, id) <==> id in PlayerIdSet(players)
  {
    if id in PlayerIdSet(players) {
      var i :| 0 <= i < |players| && players[i].id == id;
    }
  }

  /** No two records share an id, as in an object keyed by id. */
  predicate DistinctIds(players: seq<Player>) {
    forall i, j :: 0 <= i < j < |players| ==> players[i].id != players[j].id
  }

  // ---------------------------------------------------------------------
  // Role distribution

  datatype Distribution = Distribution(liberals: nat, fascists: nat, hitler: nat)

  /** The table of role counts per player count; undefined outside 5..10. */
  function RoleDistribution(n: int): (r: Option<Distribution>)
    ensures r.Some? <==> 5 <= n <= 10
    ensures r.Some? ==> r.value.liberals + r.value.fascists + r.value.hitler == n
    ensures r.Some? ==> r.value.hitler == 1 && r.value.fascists >= 1
    ensures r.Some? ==> r.value.liberals > r.value.fascists + r.value.hitler
  {
    match n
    case 5 => Some(Distribution(3, 1, 1))
    case 6 => Some(Distribution(4, 1, 1))
    case 7 => Some(Distribution(4, 2, 1))
    case 8 => Some(Distribution(5, 2, 1))
    case 9 => Some(Distribution(5, 3, 1))
    case 10 => Some(Distribution(6, 3, 1))
    case _ => None
  }

  /** The table agrees row for row with a closed form. */
  lemma RoleDistributionClosedForm(n: int)
    requires 5 <= n <= 10
    ensures RoleDistribution(n) == Some(Distribution(n - 1 - (n - 3) / 2, (n - 3) / 2, 1))
  {
  }

  /** More players never means fewer liberals or fewer fascists. */
  lemma RoleDistributionMonotone(m: int, n: int)
    requires 5 <= m <= n <= 10
    ensures RoleDistribution(m).value.liberals <= RoleDistribution(n).value.liberals
    ensures RoleDistribution(m).value.fascists <= RoleDistribution(n).value.fascists
  {
    RoleDistributionClosedForm(m);
    RoleDistributionClosedForm(n);
  }

  // ---------------------------------------------------------------------
  // Knowledge rules

  datatype KnowledgeRules = KnowledgeRules(
    hitlerKnowsFascists: bool,
    fascistsKnowHitler: bool,
    fascistsKnowEachOther: bool)

  function GetKnowledgeRules(playerCount: int): (k: KnowledgeRules)
    ensures k.hitlerKnowsFascists <==> playerCount < 7
    ensures k.fascistsKnowHitler && k.fascistsKnowEachOther
  {
    KnowledgeRules(playerCount < 7, true, true)
  }
}

/**
 * Role dealing, party derivation, start eligibility, president rotation,
 * status transitions and the asymmetric-knowledge rules.
 *
 * `Math.random` is replaced by injected choices: `picks[i]` is the index
 * the Fisher-Yates step for position `i` swaps with, so `picks[i] <= i`.
 */
module GameLogic {
  import opened Common
  import opened GameTypes

  // ---------------------------------------------------------------------
  // Parties

  function PartyFromRole(role: Role): (p: Party)
    ensures p == LiberalParty <==> role == Liberal
  {
    if role == Liberal then LiberalParty else FascistParty
  }

  /**
   * `getPartyFromRole(roles[id])` where the role may be undefined: only a
   * LIBERAL role compares equal to 'LIBERAL', so a missing role gives FASCIST.
   */
  function PartyOf(role: Option<Role>): (p: Party)
    ensures p == LiberalParty <==> role == Some(Liberal)
    ensures role.Some? ==> p == PartyFromRole(role.value)
  {
    if role == Some(Liberal) then LiberalParty else FascistParty
  }

  // ---------------------------------------------------------------------
  // Dealing

  function Repeat(r: Role, k: nat): (s: seq<Role>)
    ensures |s| == k
    ensures forall i :: 0 <= i < k ==> s[i] == r
  {
    if k == 0 then [] else Repeat(r, k - 1) + [r]
  }

  /** The role list `assignRoles` pushes before shuffling. */
  function DealtRoles(d: Distribution): seq<Role> {
    Repeat(Liberal, d.liberals) + Repeat(Fascist, d.fascists) + [Hitler]
  }

  lemma {:induction false} RepeatCount(r: Role, k: nat, x: Role)
    ensures multiset(Repeat(r, k))[x] == if x == r then k else 0
  {
    if k > 0 {
      RepeatCount(r, k - 1, x);
      assert Repeat(r, k) == Repeat(r, k - 1) + [r];
    }
  }

  lemma DealtRolesCount(d: Distribution)
    ensures |DealtRoles(d)| == d.liberals + d.fascists + 1
    ensures multiset(DealtRoles(d))[Liberal] == d.liberals
    ensures multiset(DealtRoles(d))[Fascist] == d.fascists
    ensures multiset(DealtRoles(d))[Hitler] == 1
  {
    RepeatCount(Liberal, d.liberals, Liberal);
    RepeatCount(Liberal, d.liberals, Fascist);
    RepeatCount(Liberal, d.liberals, Hitler);
    RepeatCount(Fascist, d.fascists, Liberal);
    RepeatCount(Fascist, d.fascists, Fascist);
    RepeatCount(Fascist, d.fascists, Hitler);
  }

  // ---------------------------------------------------------------------
  // Fisher-Yates shuffle, as a function of the injected choices

  predicate ValidPicks(picks: seq<nat>, n: nat) {
    |picks| == n && forall i :: 0 <= i < n ==> picks[i] <= i
  }

  function Swap(s: seq<Role>, i: nat, j: nat): (t: seq<Role>)
    requires i < |s| && j < |s|
    ensures |t| == |s| && multiset(t) == multiset(s)
  {
    s[i := s[j]][j := s[i]]
  }

  /** The steps for positions n-1, n-2, ..., 1 of the descending loop. */
  function ShuffleDown(s: seq<Role>, picks: seq<nat>, n: nat): (t: seq<Role>)
    requires n <= |s| && ValidPicks(picks, |s|)
    ensures |t| == |s| && multiset(t) == multiset(s)
    decreases n
  {
    if n <= 1 then s else ShuffleDown(Swap(s, n - 1, picks[n - 1]), picks, n - 1)
  }

  function Shuffle(s: seq<Role>, picks: seq<nat>): (t: seq<Role>)
    requires ValidPicks(picks, |s|)
    ensures |t| == |s| && multiset(t) == multiset(s)
  {
    ShuffleDown(s, picks, |s|)
  }

  // ---------------------------------------------------------------------
  // Zipping roles against players

  /** `players.forEach((p, i) => a[p.id] = roles[i])`: a later id overwrites. */
  function Zip(players: seq<Player>, roles: seq<Role>): (m: map<string, Role>)
    requires |players| <= |roles|
    ensures m.Keys == PlayerIdSet(players)
  {
    if players == [] then map[]
    else
      var k := |players| - 1;
      var prefix := Zip(players[..k], roles);
      assert PlayerIdSet(players) == PlayerIdSet(players[..k]) + {players[k].id} by {
        forall id | id in PlayerIdSet(players)
          ensures id in PlayerIdSet(players[..k]) + {players[k].id}
        {
          var i :| 0 <= i < |players| && players[i].id == id;
          if i < k { assert players[..k][i] == players[i]; }
        }
      }
      prefix[players[k].id := roles[k]]
  }

  lemma {:induction false} ZipAt(players: seq<Player>, roles: seq<Role>, i: nat)
    requires |players| <= |roles| && DistinctIds(players) && i < |players|
    ensures Zip(players, roles)[players[i].id] == roles[i]
  {
    var k := |players| - 1;
    if i < k {
      assert players[..k][i] == players[i];
      ZipAt(players[..k], roles, i);
    }
  }

  /** How many entries of an assignment hold `role`. */
  function CountRole(m: map<string, Role>, role: Role): nat {
    |set k | k in m && m[k] == role|
  }

  lemma CountRoleAdd(m: map<string, Role>, id: string, r: Role, x: Role)
    requires id !in m
    ensures CountRole(m[id := r], x) == CountRole(m, x) + (if r == x then 1 else 0)
  {
    var m2 := m[id := r];
    var before := set k | k in m && m[k] == x;
    var after := set k | k in m2 && m2[k] == x;
    if r == x {
      assert after == before + {id};
    } else {
      assert after == before;
    }
  }

  lemma {:induction false} ZipCount(players: seq<Player>, roles: seq<Role>, x: Role)
    requires |players| <= |roles| && DistinctIds(players)
    ensures CountRole(Zip(players, roles), x) == multiset(roles[..|players|])[x]
  {
    if players != [] {
      var k := |players| - 1;
      ZipCount(players[..k], roles, x);
      assert players[k].id !in PlayerIdSet(players[..k]);
      CountRoleAdd(Zip(players[..k], roles), players[k].id, roles[k], x);
      assert roles[..k + 1] == roles[..k] + [roles[k]];
    }
  }

  function InvalidCountMessage(n: nat): string {
    "Invalid player count: " + NatToString(n) + ". Must be 5-10 players."
  }

  /** Fills a fresh array with the row's liberals, then its fascists, then Hitler. */
  method BuildRoles(d: Distribution) returns (roles: array<Role>)
    ensures fresh(roles) && roles[..] == DealtRoles(d)
  {
    roles := new Role[d.liberals + d.fascists + 1];
    var len := 0;
    for i := 0 to d.liberals
      invariant len == i
      invariant roles[..len] == Repeat(Liberal, i)
    {
      roles[len] := Liberal;
      len := len + 1;
    }
    for i := 0 to d.fascists
      invariant len == d.liberals + i
      invariant roles[..len] == Repeat(Liberal, d.liberals) + Repeat(Fascist, i)
    {
      roles[len] := Fascist;
      len := len + 1;
    }
    roles[len] := Hitler;
  }

  /** The in-place Fisher-Yates loop, from the last index down to 1. */
  method ShuffleInPlace(roles: array<Role>, picks: seq<nat>)
    requires ValidPicks(picks, roles.Length)
    modifies roles
    ensures roles[..] == Shuffle(old(roles[..]), picks)
  {
    ghost var dealt := roles[..];
    var i := roles.Length - 1;
    while i > 0
      invariant -1 <= i < roles.Length
      invariant ShuffleDown(roles[..], picks, i + 1) == Shuffle(dealt, picks)
    {
      var j := picks[i];
      ghost var before := roles[..];
      var t := roles[i];
      roles[i] := roles[j];
      roles[j] := t;
      assert roles[..] == Swap(before, i, j);
      i := i - 1;
    }
  }

  /** The `forEach` that writes `roles[index]` under each player's id in turn. */
  method ZipRoles(players: seq<Player>, roles: array<Role>) returns (m: map<string, Role>)
    requires |players| <= roles.Length
    ensures m == Zip(players, roles[..])
  {
    m := map[];
    for index := 0 to |players|
      invariant m == Zip(players[..index], roles[..])
    {
      assert players[..index + 1][..index] == players[..index];
      m := m[players[index].id := roles[index]];
    }
    assert players[..|players|] == players;
  }

  /** Any deal of a row, zipped against distinct players, holds the row's counts. */
  lemma DealCounts(players: seq<Player>, picks: seq<nat>, d: Distribution)
    requires |players| == d.liberals + d.fascists + 1 && DistinctIds(players)
    requires ValidPicks(picks, |players|)
    ensures CountRole(Zip(players, Shuffle(DealtRoles(d), picks)), Liberal) == d.liberals
    ensures CountRole(Zip(players, Shuffle(DealtRoles(d), picks)), Fascist) == d.fascists
    ensures CountRole(Zip(players, Shuffle(DealtRoles(d), picks)), Hitler) == 1
  {
    DealtRolesCount(d);
    DealCount(players, picks, DealtRoles(d), Liberal);
    DealCount(players, picks, DealtRoles(d), Fascist);
    DealCount(players, picks, DealtRoles(d), Hitler);
  }

  /** Zipped against as many distinct players, a shuffle keeps each role's count. */
  lemma DealCount(players: seq<Player>, picks: seq<nat>, dealt: seq<Role>, x: Role)
    requires |players| == |dealt| && DistinctIds(players) && ValidPicks(picks, |dealt|)
    ensures CountRole(Zip(players, Shuffle(dealt, picks)), x) == multiset(dealt)[x]
  {
    var shuffled := Shuffle(dealt, picks);
    assert shuffled[..|players|] == shuffled;
    ZipCount(players, shuffled, x);
  }

  /** How many holders of a role a table row asks for. */
  function RowCount(d: Distribution, x: Role): nat {
    match x
    case Liberal => d.liberals
    case Fascist => d.fascists
    case Hitler => 1
  }

  /**
   * `assignRoles`: fails exactly when the table has no row for the number of
   * players; otherwise deals the row, shuffles it with the injected choices
   * and zips it against the players in order.
   */
  method AssignRoles(players: seq<Player>, picks: seq<nat>) returns (r: Result<map<string, Role>>)
    requires ValidPicks(picks, |players|)
    ensures r.Failure? <==> RoleDistribution(|players|).None?
    ensures r.Failure? ==> r.error == InvalidCountMessage(|players|)
    ensures r.Success? ==>
      r.value == Zip(players, Shuffle(DealtRoles(RoleDistribution(|players|).value), picks))
    ensures r.Success? ==> r.value.Keys == PlayerIdSet(players)
    ensures r.Success? && DistinctIds(players) ==>
      forall x :: CountRole(r.value, x) == RowCount(RoleDistribution(|players|).value, x)
  {
    var playerCount := |players|;
    var distribution := RoleDistribution(playerCount);
    if distribution.None? {
      return Failure("Invalid player count: " + NatToString(playerCount) + ". Must be 5-10 players.");
    }
    var d := distribution.value;
    var roles := BuildRoles(d);
    ghost var dealt := roles[..];
    ShuffleInPlace(roles, picks);
    var roleAssignment := ZipRoles(players, roles);
    r := Success(roleAssignment);
    if DistinctIds(players) {
      DealCounts(players, picks, d);
      forall x ensures CountRole(roleAssignment, x) == RowCount(d, x) {
      }
    }
  }

  // ---------------------------------------------------------------------
  // Game players

  /** `players.map(p => ({...p, role: roles[p.id], party, isAlive: true}))`. */
  function CreateGamePlayers(players: seq<Player>, roles: map<string, Role>): (gs: seq<GamePlayer>)
    ensures |gs| == |players|
    ensures forall i :: 0 <= i < |players| ==>
      && gs[i].player == players[i]
      && gs[i].role == Get(roles, players[i].id)
      && gs[i].party == PartyOf(gs[i].role)
      && gs[i].isAlive
  {
    if players == [] then []
    else
      var p := players[0];
      [GamePlayer(p, Get(roles, p.id), PartyOf(Get(roles, p.id)), true)]
        + CreateGamePlayers(players[1..], roles)
  }

  // ---------------------------------------------------------------------
  // Validation of an assignment

  datatype Validation = Validation(valid: bool, error: Option<string>)

  function ExpectedMessage(expected: nat, what: string, got: nat): string {
    "Expected " + NatToString(expected) + " " + what + ", got " + NatToString(got)
  }

  /**
   * The verdict `validateRoleAssignment` reaches: no row, then the first of
   * the liberal, fascist and Hitler counts that differs from the row.
   */
  function ValidationOf(roles: map<string, Role>, playerCount: int): Validation {
    match RoleDistribution(playerCount)
    case None => Validation(false, Some("Invalid player count: " + IntToString(playerCount)))
    case Some(d) =>
      if CountRole(roles, Liberal) != d.liberals then
        Validation(false, Some(ExpectedMessage(d.liberals, "liberals", CountRole(roles, Liberal))))
      else if CountRole(roles, Fascist) != d.fascists then
        Validation(false, Some(ExpectedMessage(d.fascists, "fascists", CountRole(roles, Fascist))))
      else if CountRole(roles, Hitler) != d.hitler then
        Validation(false, Some(ExpectedMessage(d.hitler, "Hitler", CountRole(roles, Hitler))))
      else Validation(true, None)
  }

  function CountAmong(roles: map<string, Role>, keys: set<string>, role: Role): nat {
    |set k | k in keys && k in roles && roles[k] == role|
  }

  lemma CountAmongAdd(roles: map<string, Role>, keys: set<string>, k: string, x: Role)
    requires k in roles && k !in keys
    ensures CountAmong(roles, keys + {k}, x) == CountAmong(roles, keys, x) + (if roles[k] == x then 1 else 0)
  {
    var before := set j | j in keys && j in roles && roles[j] == x;
    var after := set j | j in keys + {k} && j in roles && roles[j] == x;
    if roles[k] == x {
      assert after == before + {k};
    } else {
      assert after == before;
    }
  }

  /** `counts` tallies the roles of the keys in `seen`; a role with no key is absent. */
  predicate Tallied(counts: map<Role, nat>, roles: map<string, Role>, seen: set<string>) {
    forall x :: (x in counts <==> CountAmong(roles, seen, x) > 0) &&
                (x in counts ==> counts[x] == CountAmong(roles, seen, x))
  }

  /** `roleCounts[role] = (roleCounts[role] || 0) + 1` keeps the tally. */
  lemma TallyStep(counts: map<Role, nat>, roles: map<string, Role>, seen: set<string>, k: string)
    requires Tallied(counts, roles, seen) && k in roles && k !in seen
    ensures Tallied(counts[roles[k] := (if roles[k] in counts then counts[roles[k]] else 0) + 1], roles, seen + {k})
  {
    forall x ensures CountAmong(roles, seen + {k}, x) == CountAmong(roles, seen, x) + (if roles[k] == x then 1 else 0) {
      CountAmongAdd(roles, seen, k, x);
    }
  }

  /** Once every key is seen, the tally is the count over the whole assignment. */
  lemma TallyComplete(counts: map<Role, nat>, roles: map<string, Role>)
    requires Tallied(counts, roles, roles.Keys)
    ensures forall x :: Get(counts, x).GetOr(0) == CountRole(roles, x)
    ensures forall x :: Get(counts, x) == Some(CountRole(roles, x)) <==> CountRole(roles, x) > 0
  {
    forall x ensures CountAmong(roles, roles.Keys, x) == CountRole(roles, x) {
      assert (set j | j in roles.Keys && j in roles && roles[j] == x) == (set j | j in roles && roles[j] == x);
    }
  }

  /**
   * The counting loop of `validateRoleAssignment`: a role's tally is its
   * number of holders, and a role nobody holds has no entry.
   */
  method TallyRoles(roles: map<string, Role>) returns (roleCounts: map<Role, nat>)
    ensures forall x :: Get(roleCounts, x).GetOr(0) == CountRole(roles, x)
    ensures forall x :: Get(roleCounts, x) == Some(CountRole(roles, x)) <==> CountRole(roles, x) > 0
  {
    roleCounts := map[];
    var remaining := roles.Keys;
    ghost var seen: set<string> := {};
    while remaining != {}
      invariant remaining + seen == roles.Keys && remaining !! seen
      invariant Tallied(roleCounts, roles, seen)
      decreases remaining
    {
      var k :| k in remaining;
      TallyStep(roleCounts, roles, seen, k);
      var role := roles[k];
      roleCounts := roleCounts[role := (if role in roleCounts then roleCounts[role] else 0) + 1];
      remaining := remaining - {k};
      seen := seen + {k};
    }
    TallyComplete(roleCounts, roles);
  }

  /**
   * `validateRoleAssignment`: tallies the roles into a dictionary in which an
   * absent key stands for JavaScript's undefined, then compares the tallies
   * with the row in order. As in the source, `undefined !== expected` is a
   * mismatch reported as "got 0".
   */
  method ValidateRoleAssignment(roles: map<string, Role>, playerCount: int) returns (v: Validation)
    ensures v == ValidationOf(roles, playerCount)
  {
    var distribution := RoleDistribution(playerCount);
    if distribution.None? {
      return Validation(false, Some("Invalid player count: " + IntToString(playerCount)));
    }
    var d := distribution.value;
    var roleCounts := TallyRoles(roles);
    if Get(roleCounts, Liberal) != Some(d.liberals) {
      return Validation(false, Some(ExpectedMessage(d.liberals, "liberals", Get(roleCounts, Liberal).GetOr(0))));
    }
    if Get(roleCounts, Fascist) != Some(d.fascists) {
      return Validation(false, Some(ExpectedMessage(d.fascists, "fascists", Get(roleCounts, Fascist).GetOr(0))));
    }
    if Get(roleCounts, Hitler) != Some(d.hitler) {
      return Validation(false, Some(ExpectedMessage(d.hitler, "Hitler", Get(roleCounts, Hitler).GetOr(0))));
    }
    return Validation(true, None);
  }

  /** A verdict is valid exactly when the row exists and all three counts match it. */
  lemma ValidationValidIff(roles: map<string, Role>, playerCount: int)
    ensures ValidationOf(roles, playerCount).valid <==>
      && RoleDistribution(playerCount).Some?
      && CountRole(roles, Liberal) == RoleDistribution(playerCount).value.liberals
      && CountRole(roles, Fascist) == RoleDistribution(playerCount).value.fascists
      && CountRole(roles, Hitler) == 1
    ensures ValidationOf(roles, playerCount).valid <==> ValidationOf(roles, playerCount).error.None?
  {
  }

  /** Round trip: every deal `assignRoles` can make passes `validateRoleAssignment`. */
  lemma AssignedRolesValidate(players: seq<Player>, picks: seq<nat>)
    requires 5 <= |players| <= 10 && DistinctIds(players) && ValidPicks(picks, |players|)
    ensures ValidationOf(Zip(players, Shuffle(DealtRoles(RoleDistribution(|players|).value), picks)), |players|).valid
  {
    DealCounts(players, picks, RoleDistribution(|players|).value);
  }

  /** A deal for one player count is rejected when validated against another. */
  lemma AssignedRolesRejectOtherCount(players: seq<Player>, picks: seq<nat>, other: int)
    requires 5 <= |players| <= 10 && DistinctIds(players) && ValidPicks(picks, |players|)
    requires other != |players|
    ensures !ValidationOf(Zip(players, Shuffle(DealtRoles(RoleDistribution(|players|).value), picks)), other).valid
  {
    AssignedRolesValidate(players, picks);
    ValidForOneCount(Zip(players, Shuffle(DealtRoles(RoleDistribution(|players|).value), picks)), |players|, other);
  }

  /** No assignment is valid for two different player counts. */
  lemma ValidForOneCount(roles: map<string, Role>, a: int, b: int)
    requires ValidationOf(roles, a).valid && a != b
    ensures !ValidationOf(roles, b).valid
  {
    var rowA := RoleDistribution(a).value;
    var rowB := RoleDistribution(b);
    assert rowB.Some? ==> rowB.value.liberals != rowA.liberals || rowB.value.fascists != rowA.fascists;
  }

  // ---------------------------------------------------------------------
  // Start eligibility

  datatype StartCheck = StartCheck(canStart: bool, reason: Option<string>)

  function CanStartGame(playerCount: int): (c: StartCheck)
    ensures c.canStart <==> 5 <= playerCount <= 10
    ensures c.canStart <==> c.reason.None?
    ensures playerCount < 5 ==> c.reason == Some("Need at least 5 players to start")
    ensures playerCount > 10 ==> c.reason == Some("Maximum 10 players allowed")
  {
    if playerCount < 5 then StartCheck(false, Some("Need at least 5 players to start"))
    else if playerCount > 10 then StartCheck(false, Some("Maximum 10 players allowed"))
    else StartCheck(true, None)
  }

  /** The gate and the table agree: a game can start exactly when a row exists. */
  lemma CanStartIffDistribution(playerCount: int)
    ensures CanStartGame(playerCount).canStart <==> RoleDistribution(playerCount).Some?
  {
  }

  // ---------------------------------------------------------------------
  // President rotation

  /** Entry `i` is the first with id `id`. */
  predicate FirstWithId(players: seq<Player>, i: nat, id: string)
    requires i < |players|
  {
    players[i].id == id && forall j :: 0 <= j < i ==> players[j].id != id
  }

  /** `players.findIndex(p => p.id === id)`: the first match, or -1. */
  function FindIndex(players: seq<Player>, id: string): (k: int)
    ensures -1 <= k < |players|
    ensures k >= 0 ==> FirstWithId(players, k, id)
    ensures k == -1 <==> !HasPlayer(players, id)
  {
    if players == [] then -1
    else if players[0].id == id then 0
    else
      var rest := FindIndex(players[1..], id);
      assert HasPlayer(players[1..], id) ==> HasPlayer(players, id) by {
        if HasPlayer(players[1..], id) {
          var i :| 0 <= i < |players[1..]| && players[1..][i].id == id;
          assert players[i + 1].id == id;
        }
      }
      assert HasPlayer(players, id) ==> HasPlayer(players[1..], id) by {
        if HasPlayer(players, id) {
          var i :| 0 <= i < |players| && players[i].id == id;
          assert i > 0 && players[1..][i - 1].id == id;
        }
      }
      if rest == -1 then -1 else rest + 1
  }

  /**
   * `getNextPresident`: the player after the current one, wrapping round.
   * With no players the source indexes `players[NaN]` and throws; that is
   * `None` here.
   */
  function GetNextPresident(currentPresidentId: string, players: seq<Player>): (r: Option<string>)
    ensures r.None? <==> players == []
    ensures r.Some? ==> HasPlayer(players, r.value)
  {
    if players == [] then None
    else
      var currentIndex := FindIndex(players, currentPresidentId);
      var nextIndex := (currentIndex + 1) % |players|;
      assert HasPlayer(players, players[nextIndex].id);
      Some(players[nextIndex].id)
  }

  /** An id that is not in the roster hands the presidency to the first player. */
  lemma NextPresidentUnknown(currentPresidentId: string, players: seq<Player>)
    requires players != [] && !HasPlayer(players, currentPresidentId)
    ensures GetNextPresident(currentPresidentId, players) == Some(players[0].id)
  {
  }

  /** The presidency passes from the first holder of the id to the next entry. */
  lemma NextPresidentFollows(currentPresidentId: string, players: seq<Player>, i: nat)
    requires i + 1 < |players| && FirstWithId(players, i, currentPresidentId)
    ensures GetNextPresident(currentPresidentId, players) == Some(players[i + 1].id)
  {
    FindIndexOfFirst(players, i, currentPresidentId);
    SmallMod(i + 1, |players|);
  }

  /** The first entry with the id is the one `findIndex` finds. */
  lemma {:induction false} FindIndexOfFirst(players: seq<Player>, i: nat, id: string)
    requires i < |players| && FirstWithId(players, i, id)
    ensures FindIndex(players, id) == i
  {
    if i > 0 {
      assert players[0].id != id;
      FindIndexOfFirst(players[1..], i - 1, id);
    }
  }

  lemma SmallMod(a: nat, n: nat)
    requires a < n
    ensures a % n == a
  {
  }

  /** After the last player the presidency wraps round to the first. */
  lemma NextPresidentWraps(currentPresidentId: string, players: seq<Player>)
    requires players != [] && FirstWithId(players, |players| - 1, currentPresidentId)
    ensures GetNextPresident(currentPresidentId, players) == Some(players[0].id)
  {
    FindIndexOfFirst(players, |players| - 1, currentPresidentId);
    assert |players| % |players| == 0;
  }

  // ---------------------------------------------------------------------
  // Status transitions

  /** The `validTransitions` table: the statuses each status may move to, or none for an unknown name. */
  function ValidTransitions(fromState: string): Option<seq<string>> {
    if fromState == "LOBBY" then Some(["ROLE_REVEAL"])
    else if fromState == "ROLE_REVEAL" then Some(["VOTING"])
    else if fromState == "VOTING" then Some(["LEGISLATIVE", "VOTING"])
    else if fromState == "LEGISLATIVE" then Some(["EXECUTIVE_ACTION", "VOTING"])
    else if fromState == "EXECUTIVE_ACTION" then Some(["VOTING", "GAME_OVER"])
    else if fromState == "GAME_OVER" then Some(["LOBBY"])
    else None
  }

  /** The nine moves the transition table lists, as (from, to) pairs. */
  const ListedTransitions: set<(string, string)> := {
    ("LOBBY", "ROLE_REVEAL"), ("ROLE_REVEAL", "VOTING"),
    ("VOTING", "LEGISLATIVE"), ("VOTING", "VOTING"),
    ("LEGISLATIVE", "EXECUTIVE_ACTION"), ("LEGISLATIVE", "VOTING"),
    ("EXECUTIVE_ACTION", "VOTING"), ("EXECUTIVE_ACTION", "GAME_OVER"),
    ("GAME_OVER", "LOBBY")
  }

  /** `validTransitions[from]?.includes(to) || false`. */
  function IsValidStateTransition(fromState: string, toState: string): (ok: bool)
    ensures ok <==> (fromState, toState) in ListedTransitions
    ensures ok ==> ParseStatus(fromState).Some? && ParseStatus(toState).Some?
    ensures ok && fromState == toState ==> fromState == "VOTING"
    ensures fromState == "LOBBY" ==> (ok <==> toState == "ROLE_REVEAL")
    ensures fromState == "GAME_OVER" ==> (ok <==> toState == "LOBBY")
  {
    match ValidTransitions(fromState)
    case None => false
    case Some(targets) => toState in targets
  }

  /** A full game goes round from LOBBY through every status and back. */
  lemma GameCycle()
    ensures IsValidStateTransition("LOBBY", "ROLE_REVEAL")
    ensures IsValidStateTransition("ROLE_REVEAL", "VOTING")
    ensures IsValidStateTransition("VOTING", "LEGISLATIVE")
    ensures IsValidStateTransition("LEGISLATIVE", "EXECUTIVE_ACTION")
    ensures IsValidStateTransition("EXECUTIVE_ACTION", "GAME_OVER")
    ensures IsValidStateTransition("GAME_OVER", "LOBBY")
    ensures !IsValidStateTransition("LOBBY", "GAME_OVER")
  {
  }

  // ---------------------------------------------------------------------
  // Asymmetric knowledge

  /** Whether an observer with `observerRole` is shown a player holding `role`. */
  predicate Reveals(observerRole: Role, playerCount: int, role: Option<Role>) {
    || (observerRole == Fascist && (role == Some(Fascist) || role == Some(Hitler)))
    || (observerRole == Hitler && playerCount < 7 && role == Some(Fascist))
  }

  /** The ids an observer sees: themselves and every player they are shown. */
  function VisibleIds(observerId: string, observerRole: Role, players: seq<GamePlayer>, playerCount: int): set<string> {
    {observerId} + set i | 0 <= i < |players| && Reveals(observerRole, playerCount, players[i].role) :: players[i].Id()
  }

  /** No entry of `players` after `i` and before `upTo` has the same id as entry `i`. */
  predicate LastWithId(players: seq<GamePlayer>, i: nat, upTo: nat)
    requires i < upTo <= |players|
  {
    forall j :: i < j < upTo ==> players[j].Id() != players[i].Id()
  }

  /** Some player among the first `upTo` with id `k` is one the observer is shown. */
  predicate ShownAmong(observerRole: Role, playerCount: int, players: seq<GamePlayer>, k: string, upTo: nat)
    requires upTo <= |players|
  {
    exists i :: 0 <= i < upTo && Reveals(observerRole, playerCount, players[i].role) && players[i].Id() == k
  }

  /** The ids of the players among the first `upTo` that the observer is shown. */
  function ShownIds(observerRole: Role, playerCount: int, players: seq<GamePlayer>, upTo: nat): set<string>
    requires upTo <= |players|
  {
    set i | 0 <= i < upTo && Reveals(observerRole, playerCount, players[i].role) :: players[i].Id()
  }

  /** Both maps hold entry `i`'s own role and party. */
  predicate HoldsEntry(roles: map<string, Role>, parties: map<string, Party>, players: seq<GamePlayer>, i: nat)
    requires i < |players|
  {
    && players[i].role.Some?
    && players[i].Id() in roles && roles[players[i].Id()] == players[i].role.value
    && players[i].Id() in parties && parties[players[i].Id()] == players[i].party
  }

  /** Every shown entry not overwritten by a later one is held by the maps. */
  predicate HoldsShown(roles: map<string, Role>, parties: map<string, Party>,
                       observerRole: Role, playerCount: int, players: seq<GamePlayer>, upTo: nat)
    requires upTo <= |players|
  {
    forall i :: 0 <= i < upTo && Reveals(observerRole, playerCount, players[i].role) ==>
      (LastWithId(players, i, upTo) ==> HoldsEntry(roles, parties, players, i))
  }

  /** What the `forEach` has achieved after its first `n` players. */
  predicate Revealed(
    visibleRoles: map<string, Role>, visibleParties: map<string, Party>,
    roles0: map<string, Role>, parties0: map<string, Party>,
    observerRole: Role, playerCount: int, players: seq<GamePlayer>, n: nat)
    requires n <= |players|
  {
    && roles0.Keys == parties0.Keys
    && visibleRoles.Keys == visibleParties.Keys
    && visibleRoles.Keys == roles0.Keys + ShownIds(observerRole, playerCount, players, n)
    && HoldsShown(visibleRoles, visibleParties, observerRole, playerCount, players, n)
    && forall k :: k in roles0 && !ShownAmong(observerRole, playerCount, players, k, n) ==>
         visibleRoles[k] == roles0[k] && visibleParties[k] == parties0[k]
  }

  lemma ShownStep(observerRole: Role, playerCount: int, players: seq<GamePlayer>, n: nat)
    requires n < |players|
    ensures ShownIds(observerRole, playerCount, players, n + 1) ==
      ShownIds(observerRole, playerCount, players, n) +
      (if Reveals(observerRole, playerCount, players[n].role) then {players[n].Id()} else {})
    ensures forall k :: ShownAmong(observerRole, playerCount, players, k, n + 1) <==>
      ShownAmong(observerRole, playerCount, players, k, n) ||
      (Reveals(observerRole, playerCount, players[n].role) && k == players[n].Id())
  {
    forall k ensures ShownAmong(observerRole, playerCount, players, k, n + 1) <==>
      ShownAmong(observerRole, playerCount, players, k, n) ||
      (Reveals(observerRole, playerCount, players[n].role) && k == players[n].Id())
    {
      if ShownAmong(observerRole, playerCount, players, k, n + 1) {
        var i :| 0 <= i < n + 1 && Reveals(observerRole, playerCount, players[i].role) && players[i].Id() == k;
        if i < n {
          assert ShownAmong(observerRole, playerCount, players, k, n);
        }
      }
      if ShownAmong(observerRole, playerCount, players, k, n) {
        var i :| 0 <= i < n && Reveals(observerRole, playerCount, players[i].role) && players[i].Id() == k;
        assert 0 <= i < n + 1;
      }
      if Reveals(observerRole, playerCount, players[n].role) && k == players[n].Id() {
        assert 0 <= n < n + 1;
      }
    }
  }

  lemma HoldsShownWrite(
    roles: map<string, Role>, parties: map<string, Party>,
    observerRole: Role, playerCount: int, players: seq<GamePlayer>, n: nat)
    requires n < |players| && Reveals(observerRole, playerCount, players[n].role)
    requires HoldsShown(roles, parties, observerRole, playerCount, players, n)
    ensures HoldsShown(roles[players[n].Id() := players[n].role.value],
                       parties[players[n].Id() := players[n].party],
                       observerRole, playerCount, players, n + 1)
  {
    var p := players[n];
    var roles1 := roles[p.Id() := p.role.value];
    var parties1 := parties[p.Id() := p.party];
    forall i | 0 <= i < n + 1 && Reveals(observerRole, playerCount, players[i].role) && LastWithId(players, i, n + 1)
      ensures HoldsEntry(roles1, parties1, players, i)
    {
      if i < n {
        assert LastWithId(players, i, n);
        assert players[i].Id() != p.Id();
      }
    }
  }

  lemma HoldsShownSkip(
    roles: map<string, Role>, parties: map<string, Party>,
    observerRole: Role, playerCount: int, players: seq<GamePlayer>, n: nat)
    requires n < |players| && !Reveals(observerRole, playerCount, players[n].role)
    requires HoldsShown(roles, parties, observerRole, playerCount, players, n)
    ensures HoldsShown(roles, parties, observerRole, playerCount, players, n + 1)
  {
    forall i | 0 <= i < n + 1 && Reveals(observerRole, playerCount, players[i].role) && LastWithId(players, i, n + 1)
      ensures HoldsEntry(roles, parties, players, i)
    {
      assert LastWithId(players, i, n);
    }
  }

  /** Writing a shown player's id leaves every entry of `roles0` that no shown player overrides. */
  lemma KeepsUnshownWrite(
    visibleRoles: map<string, Role>, visibleParties: map<string, Party>,
    roles0: map<string, Role>, parties0: map<string, Party>,
    observerRole: Role, playerCount: int, players: seq<GamePlayer>, n: nat)
    requires n < |players| && Reveals(observerRole, playerCount, players[n].role)
    requires roles0.Keys == parties0.Keys
    requires roles0.Keys <= visibleRoles.Keys && roles0.Keys <= visibleParties.Keys
    requires forall k :: k in roles0 && !ShownAmong(observerRole, playerCount, players, k, n) ==>
      visibleRoles[k] == roles0[k] && visibleParties[k] == parties0[k]
    ensures forall k :: k in roles0 && !ShownAmong(observerRole, playerCount, players, k, n + 1) ==>
      visibleRoles[players[n].Id() := players[n].role.value][k] == roles0[k] &&
      visibleParties[players[n].Id() := players[n].party][k] == parties0[k]
  {
    forall k | k in roles0 && !ShownAmong(observerRole, playerCount, players, k, n + 1)
      ensures !ShownAmong(observerRole, playerCount, players, k, n) && k != players[n].Id()
    {
    }
  }

  /** A revealed player is written over the maps and the invariant moves on. */
  lemma RevealShown(
    visibleRoles: map<string, Role>, visibleParties: map<string, Party>,
    roles0: map<string, Role>, parties0: map<string, Party>,
    observerRole: Role, playerCount: int, players: seq<GamePlayer>, n: nat)
    requires n < |players| && Reveals(observerRole, playerCount, players[n].role)
    requires Revealed(visibleRoles, visibleParties, roles0, parties0, observerRole, playerCount, players, n)
    ensures Revealed(visibleRoles[players[n].Id() := players[n].role.value],
                     visibleParties[players[n].Id() := players[n].party],
                     roles0, parties0, observerRole, playerCount, players, n + 1)
  {
    ShownStep(observerRole, playerCount, players, n);
    HoldsShownWrite(visibleRoles, visibleParties, observerRole, playerCount, players, n);
    KeepsUnshownWrite(visibleRoles, visibleParties, roles0, parties0, observerRole, playerCount, players, n);
  }

  /** A player the filter rejects leaves the maps alone and the invariant moves on. */
  lemma RevealSkipped(
    visibleRoles: map<string, Role>, visibleParties: map<string, Party>,
    roles0: map<string, Role>, parties0: map<string, Party>,
    observerRole: Role, playerCount: int, players: seq<GamePlayer>, n: nat)
    requires n < |players| && !Reveals(observerRole, playerCount, players[n].role)
    requires Revealed(visibleRoles, visibleParties, roles0, parties0, observerRole, playerCount, players, n)
    ensures Revealed(visibleRoles, visibleParties, roles0, parties0, observerRole, playerCount, players, n + 1)
  {
    ShownStep(observerRole, playerCount, players, n);
    HoldsShownSkip(visibleRoles, visibleParties, observerRole, playerCount, players, n);
  }

  /** The pair of dictionaries `getVisibleInformation` fills. */
  datatype Visibility = Visibility(roles: map<string, Role>, parties: map<string, Party>)

  /** The dictionaries after the `forEach` has visited the first `n` players. */
  function RevealFrom(players: seq<GamePlayer>, observerRole: Role, playerCount: int, seed: Visibility, n: nat): Visibility
    requires n <= |players|
  {
    if n == 0 then seed
    else
      var v := RevealFrom(players, observerRole, playerCount, seed, n - 1);
      var p := players[n - 1];
      if Reveals(observerRole, playerCount, p.role) then
        Visibility(v.roles[p.Id() := p.role.value], v.parties[p.Id() := p.party])
      else v
  }

  lemma {:induction false} RevealFromRevealed(
    players: seq<GamePlayer>, observerRole: Role, playerCount: int, seed: Visibility, n: nat)
    requires n <= |players| && seed.roles.Keys == seed.parties.Keys
    ensures Revealed(RevealFrom(players, observerRole, playerCount, seed, n).roles,
                     RevealFrom(players, observerRole, playerCount, seed, n).parties,
                     seed.roles, seed.parties, observerRole, playerCount, players, n)
  {
    if n == 0 {
      assert ShownIds(observerRole, playerCount, players, 0) == {};
    } else {
      RevealFromRevealed(players, observerRole, playerCount, seed, n - 1);
      RevealFromStep(players, observerRole, playerCount, seed, n - 1);
    }
  }

  /** Visiting one more player keeps the invariant of the `forEach`. */
  lemma RevealFromStep(players: seq<GamePlayer>, observerRole: Role, playerCount: int, seed: Visibility, m: nat)
    requires m < |players|
    requires Revealed(RevealFrom(players, observerRole, playerCount, seed, m).roles,
                      RevealFrom(players, observerRole, playerCount, seed, m).parties,
                      seed.roles, seed.parties, observerRole, playerCount, players, m)
    ensures Revealed(RevealFrom(players, observerRole, playerCount, seed, m + 1).roles,
                     RevealFrom(players, observerRole, playerCount, seed, m + 1).parties,
                     seed.roles, seed.parties, observerRole, playerCount, players, m + 1)
  {
    var v := RevealFrom(players, observerRole, playerCount, seed, m);
    if Reveals(observerRole, playerCount, players[m].role) {
      RevealShown(v.roles, v.parties, seed.roles, seed.parties, observerRole, playerCount, players, m);
    } else {
      RevealSkipped(v.roles, v.parties, seed.roles, seed.parties, observerRole, playerCount, players, m);
    }
  }

  /** One `forEach` of `getVisibleInformation`, revealing every player the filter admits. */
  method RevealPlayers(
    allPlayers: seq<GamePlayer>, observerRole: Role, playerCount: int,
    roles0: map<string, Role>, parties0: map<string, Party>)
    returns (visibleRoles: map<string, Role>, visibleParties: map<string, Party>)
    ensures Visibility(visibleRoles, visibleParties) ==
      RevealFrom(allPlayers, observerRole, playerCount, Visibility(roles0, parties0), |allPlayers|)
  {
    visibleRoles, visibleParties := roles0, parties0;
    for n := 0 to |allPlayers|
      invariant Visibility(visibleRoles, visibleParties) ==
        RevealFrom(allPlayers, observerRole, playerCount, Visibility(roles0, parties0), n)
    {
      var player := allPlayers[n];
      if Reveals(observerRole, playerCount, player.role) {
        visibleRoles := visibleRoles[player.Id() := player.role.value];
        visibleParties := visibleParties[player.Id() := player.party];
      }
    }
  }

  /** What `getVisibleInformation` returns, as a function of its arguments. */
  function VisibleInformation(playerId: string, playerRole: Role, allPlayers: seq<GamePlayer>, playerCount: int): Visibility {
    var seed := Visibility(map[playerId := playerRole], map[playerId := PartyFromRole(playerRole)]);
    if Reveals(playerRole, playerCount, Some(Fascist)) then
      RevealFrom(allPlayers, playerRole, playerCount, seed, |allPlayers|)
    else seed
  }

  /**
   * The shape of the view: its two dictionaries have the same keys, namely the
   * observer and every player they are shown; every shown player appears with
   * their own role and party (the last entry of a repeated id wins); and the
   * observer keeps their own role and party unless a shown entry shares their id.
   */
  lemma VisibleInformationShape(playerId: string, playerRole: Role, allPlayers: seq<GamePlayer>, playerCount: int)
    ensures var v := VisibleInformation(playerId, playerRole, allPlayers, playerCount);
      && v.roles.Keys == v.parties.Keys == VisibleIds(playerId, playerRole, allPlayers, playerCount)
      && HoldsShown(v.roles, v.parties, playerRole, playerCount, allPlayers, |allPlayers|)
      && (!ShownAmong(playerRole, playerCount, allPlayers, playerId, |allPlayers|) ==>
            v.roles[playerId] == playerRole && v.parties[playerId] == PartyFromRole(playerRole))
  {
    var seed := Visibility(map[playerId := playerRole], map[playerId := PartyFromRole(playerRole)]);
    RevealFromRevealed(allPlayers, playerRole, playerCount, seed, |allPlayers|);
    if !Reveals(playerRole, playerCount, Some(Fascist)) {
      assert ShownIds(playerRole, playerCount, allPlayers, |allPlayers|) == {};
    }
  }

  /**
   * `getVisibleInformation`. Every observer is seeded with their own role and
   * party; a Fascist is shown every FASCIST and HITLER player; Hitler is shown
   * every FASCIST player when there are fewer than 7 players.
   */
  method GetVisibleInformation(playerId: string, playerRole: Role, allPlayers: seq<GamePlayer>, playerCount: int)
    returns (visibleRoles: map<string, Role>, visibleParties: map<string, Party>)
    ensures Visibility(visibleRoles, visibleParties) == VisibleInformation(playerId, playerRole, allPlayers, playerCount)
  {
    visibleRoles := map[playerId := playerRole];
    visibleParties := map[playerId := PartyFromRole(playerRole)];

    if playerRole == Fascist {
      visibleRoles, visibleParties := RevealPlayers(allPlayers, playerRole, playerCount, visibleRoles, visibleParties);
    }
    if playerRole == Hitler && playerCount < 7 {
      visibleRoles, visibleParties := RevealPlayers(allPlayers, playerRole, playerCount, visibleRoles, visibleParties);
    }
  }

  // ---------------------------------------------------------------------
  // What each role gets to see

  function IdsWithRoleIn(players: seq<GamePlayer>, wanted: set<Role>): set<string> {
    set i | 0 <= i < |players| && players[i].role.Some? && players[i].role.value in wanted :: players[i].Id()
  }

  lemma LiberalSeesOnlySelf(id: string, players: seq<GamePlayer>, playerCount: int)
    ensures VisibleIds(id, Liberal, players, playerCount) == {id}
  {
  }

  lemma FascistSeesTeam(id: string, players: seq<GamePlayer>, playerCount: int)
    ensures VisibleIds(id, Fascist, players, playerCount) == {id} + IdsWithRoleIn(players, {Fascist, Hitler})
  {
    assert forall i :: 0 <= i < |players| ==>
      (Reveals(Fascist, playerCount, players[i].role) <==>
       players[i].role.Some? && players[i].role.value in {Fascist, Hitler});
  }

  lemma HitlerSees(id: string, players: seq<GamePlayer>, playerCount: int)
    ensures playerCount < 7 ==> VisibleIds(id, Hitler, players, playerCount) == {id} + IdsWithRoleIn(players, {Fascist})
    ensures playerCount >= 7 ==> VisibleIds(id, Hitler, players, playerCount) == {id}
  {
    assert forall i :: 0 <= i < |players| ==>
      (Reveals(Hitler, playerCount, players[i].role) <==>
       playerCount < 7 && players[i].role.Some? && players[i].role.value in {Fascist});
  }

  /** Hitler's view follows the knowledge rules' threshold. */
  lemma HitlerViewFollowsKnowledgeRules(id: string, players: seq<GamePlayer>, playerCount: int)
    ensures GetKnowledgeRules(playerCount).hitlerKnowsFascists ==>
      VisibleIds(id, Hitler, players, playerCount) == {id} + IdsWithRoleIn(players, {Fascist})
    ensures !GetKnowledgeRules(playerCount).hitlerKnowsFascists ==>
      VisibleIds(id, Hitler, players, playerCount) == {id}
  {
    HitlerSees(id, players, playerCount);
  }
}

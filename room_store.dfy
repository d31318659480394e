/**
 * The rooms in the realtime store, as the hooks see them: one typed room
 * document per room id. The write helpers the hooks call
 * (`addPlayerToRoom`, `removePlayer`, `storeInvestigation`, `deleteRoom`,
 * and the metadata and role writes) are methods on the store.
 */
module RoomStore {
  import opened Common
  import opened GameTypes

  // ---------------------------------------------------------------------
  // The players object under writes

  /** `set(rooms/R/players/P, p)`: replaces the record under `p.id`, or adds it. */
  function SetPlayer(players: seq<Player>, p: Player): (ps: seq<Player>)
    ensures PlayerIdSet(ps) == PlayerIdSet(players) + {p.id}
    ensures p in ps
    ensures forall q :: q in ps ==> q == p || (q in players && q.id != p.id)
    ensures forall q :: q in players && q.id != p.id ==> q in ps
    ensures DistinctIds(players) ==> DistinctIds(ps)
    ensures HasPlayer(players, p.id) ==> |ps| == |players|
    ensures !HasPlayer(players, p.id) ==> ps == players + [p]
  {
    if HasPlayer(players, p.id) then ReplacePlayer(players, p) else
      assert PlayerIdSet(players + [p]) == PlayerIdSet(players) + {p.id} by {
        forall id | id in PlayerIdSet(players) ensures id in PlayerIdSet(players + [p]) {
          var i :| 0 <= i < |players| && players[i].id == id;
          assert (players + [p])[i] == players[i];
        }
        assert (players + [p])[|players|] == p;
      }
      players + [p]
  }

  /** Every record with `p.id` becomes `p`, in place. */
  function ReplacePlayer(players: seq<Player>, p: Player): (ps: seq<Player>)
    requires HasPlayer(players, p.id)
    ensures |ps| == |players|
    ensures forall i :: 0 <= i < |players| ==> ps[i] == if players[i].id == p.id then p else players[i]
    ensures PlayerIdSet(ps) == PlayerIdSet(players)
    ensures p in ps
    ensures forall q :: q in ps ==> q == p || (q in players && q.id != p.id)
    ensures forall q :: q in players && q.id != p.id ==> q in ps
    ensures DistinctIds(players) ==> DistinctIds(ps)
  {
    var ps := seq(|players|, i requires 0 <= i < |players| => if players[i].id == p.id then p else players[i]);
    assert PlayerIdSet(ps) == PlayerIdSet(players) by {
      forall id | id in PlayerIdSet(players) ensures id in PlayerIdSet(ps) {
        var i :| 0 <= i < |players| && players[i].id == id;
        assert ps[i].id == id;
      }
      forall id | id in PlayerIdSet(ps) ensures id in PlayerIdSet(players) {
        var i :| 0 <= i < |ps| && ps[i].id == id;
        assert players[i].id == id;
      }
    }
    var k :| 0 <= k < |players| && players[k].id == p.id;
    assert ps[k] == p;
    ps
  }

  /**
   * `remove(rooms/R/players/P)`, and equally `.filter(([id]) => id !== P)`
   * over the entries: drops the records under `id`, keeping the others in order.
   */
  function RemovePlayer(players: seq<Player>, id: string): (ps: seq<Player>)
    ensures forall q :: q in ps <==> q in players && q.id != id
    ensures |ps| <= |players|
  {
    if players == [] then []
    else
      var rest := RemovePlayer(players[1..], id);
      assert forall q :: q in players <==> q == players[0] || q in players[1..];
      if players[0].id == id then rest else [players[0]] + rest
  }

  lemma IdSetMembers(players: seq<Player>, x: string)
    ensures x in PlayerIdSet(players) <==> exists q :: q in players && q.id == x
  {
    if x in PlayerIdSet(players) {
      var i :| 0 <= i < |players| && players[i].id == x;
      assert players[i] in players;
    }
    if exists q :: q in players && q.id == x {
      var q :| q in players && q.id == x;
      var i :| 0 <= i < |players| && players[i] == q;
    }
  }

  /** After the removal the key is gone and every other key stays. */
  lemma RemovePlayerIds(players: seq<Player>, id: string)
    ensures PlayerIdSet(RemovePlayer(players, id)) == PlayerIdSet(players) - {id}
    ensures !HasPlayer(RemovePlayer(players, id), id)
  {
    var ps := RemovePlayer(players, id);
    forall x ensures x in PlayerIdSet(ps) <==> x in PlayerIdSet(players) - {id} {
      IdSetMembers(ps, x);
      IdSetMembers(players, x);
    }
    HasPlayerIffKey(ps, id);
  }

  /** Removing an id that is not present changes nothing. */
  lemma {:induction false} RemoveAbsentPlayer(players: seq<Player>, id: string)
    requires !HasPlayer(players, id)
    ensures RemovePlayer(players, id) == players
  {
    if players != [] {
      assert forall i :: 0 <= i < |players[1..]| ==> players[1..][i] == players[i + 1];
      RemoveAbsentPlayer(players[1..], id);
      assert players[0].id != id;
      assert [players[0]] + players[1..] == players;
    }
  }

  /** Removing a record keeps the remaining keys distinct. */
  lemma {:induction false} RemovePlayerDistinct(players: seq<Player>, id: string)
    ensures DistinctIds(players) ==> DistinctIds(RemovePlayer(players, id))
  {
    if players != [] && DistinctIds(players) {
      var tail := players[1..];
      assert DistinctIds(tail) by {
        forall i, j | 0 <= i < j < |tail| ensures tail[i].id != tail[j].id {
          assert tail[i] == players[i + 1] && tail[j] == players[j + 1];
        }
      }
      RemovePlayerDistinct(tail, id);
      var rest := RemovePlayer(tail, id);
      if players[0].id != id {
        forall j | 0 <= j < |rest| ensures rest[j].id != players[0].id {
          assert rest[j] in tail;
          var m :| 0 <= m < |tail| && tail[m] == rest[j];
          assert players[m + 1] == rest[j];
        }
        var ps := [players[0]] + rest;
        forall i, j | 0 <= i < j < |ps| ensures ps[i].id != ps[j].id {
          if i > 0 {
            assert ps[i] == rest[i - 1] && ps[j] == rest[j - 1];
          } else {
            assert ps[j] == rest[j - 1];
          }
        }
      }
    }
  }

  // ---------------------------------------------------------------------
  // The store

  class Store {
    var rooms: map<string, RoomDoc>

    /** Each room is stored under its own id and its players object has one record per key. */
    predicate Valid()
      reads this
    {
      forall r :: r in rooms ==> rooms[r].id == r && DistinctIds(rooms[r].players)
    }

    constructor()
      ensures rooms == map[] && Valid()
    {
      rooms := map[];
    }

    /** `addPlayerToRoom`; a write under a room that is not stored is not modelled. */
    method AddPlayer(roomId: string, p: Player)
      requires Valid()
      modifies this
      ensures Valid()
      ensures rooms == if roomId in old(rooms)
        then old(rooms)[roomId := old(rooms)[roomId].(players := SetPlayer(old(rooms)[roomId].players, p))]
        else old(rooms)
    {
      if roomId in rooms {
        var doc := rooms[roomId];
        rooms := rooms[roomId := doc.(players := SetPlayer(doc.players, p))];
      }
    }

    /** `removePlayer`. */
    method RemovePlayerRecord(roomId: string, playerId: string)
      requires Valid()
      modifies this
      ensures Valid()
      ensures rooms == if roomId in old(rooms)
        then old(rooms)[roomId := old(rooms)[roomId].(players := RemovePlayer(old(rooms)[roomId].players, playerId))]
        else old(rooms)
    {
      if roomId in rooms {
        var doc := rooms[roomId];
        RemovePlayerDistinct(doc.players, playerId);
        rooms := rooms[roomId := doc.(players := RemovePlayer(doc.players, playerId))];
      }
    }

    /** `storeInvestigation`: sets the record under `investigations/targetId`. */
    method StoreInvestigation(roomId: string, targetId: string, record: InvestigationRecord)
      requires Valid()
      modifies this
      ensures Valid()
      ensures rooms == if roomId in old(rooms)
        then old(rooms)[roomId := old(rooms)[roomId].(investigations := old(rooms)[roomId].investigations[targetId := record])]
        else old(rooms)
    {
      if roomId in rooms {
        var doc := rooms[roomId];
        rooms := rooms[roomId := doc.(investigations := doc.investigations[targetId := record])];
      }
    }

    /** `deleteRoom`. */
    method DeleteRoom(roomId: string)
      requires Valid()
      modifies this
      ensures Valid()
      ensures rooms == old(rooms) - {roomId}
    {
      rooms := rooms - {roomId};
    }

    /** The `roles` object written when a game starts. */
    method SetRoles(roomId: string, roles: map<string, Role>)
      requires Valid()
      modifies this
      ensures Valid()
      ensures rooms == if roomId in old(rooms)
        then old(rooms)[roomId := old(rooms)[roomId].(roles := roles)]
        else old(rooms)
    {
      if roomId in rooms {
        rooms := rooms[roomId := rooms[roomId].(roles := roles)];
      }
    }

    /** A metadata update: the listed fields change, the others stay. */
    method SetMetadata(roomId: string, metadata: Metadata)
      requires Valid()
      modifies this
      ensures Valid()
      ensures rooms == if roomId in old(rooms)
        then old(rooms)[roomId := old(rooms)[roomId].(metadata := metadata)]
        else old(rooms)
    {
      if roomId in rooms {
        rooms := rooms[roomId := rooms[roomId].(metadata := metadata)];
      }
    }

    /**
     * `resetRoom` as the typed document sees it: the update map writes a
     * top-level `status`, `startedAt`, `endedAt` and `currentChancellorId`
     * and `players/P/role`, none of which the typed document holds, and
     * clears `investigations`.
     */
    method ResetRoom(roomId: string)
      requires Valid()
      modifies this
      ensures Valid()
      ensures rooms == if roomId in old(rooms)
        then old(rooms)[roomId := old(rooms)[roomId].(investigations := map[])]
        else old(rooms)
    {
      if roomId in rooms {
        rooms := rooms[roomId := rooms[roomId].(investigations := map[])];
      }
    }
  }
}

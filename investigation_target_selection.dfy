/**
 * The president's target picker: which players may be investigated, the
 * status line shown beside each, and the busy flag that keeps a second
 * request from starting while one is under way.
 */
module TargetSelection {
  import opened Common
  import opened GameTypes
  import opened RoomStore
  import opened RoomHook

  /** `canInvestigate(player)`: neither the president nor an already investigated player. */
  function CanInvestigate(player: GamePlayer, currentPresidentId: string, alreadyInvestigated: seq<string>): (ok: bool)
    ensures player.Id() == currentPresidentId ==> !ok
    ensures player.Id() in alreadyInvestigated ==> !ok
    ensures player.Id() != currentPresidentId && player.Id() !in alreadyInvestigated ==> ok
  {
    if player.Id() == currentPresidentId then false
    else if player.Id() in alreadyInvestigated then false
    else true
  }

  /** `getInvestigationStatus(player)`: self first, then already investigated, then eligible. */
  function InvestigationStatus(player: GamePlayer, currentPresidentId: string, alreadyInvestigated: seq<string>): (s: string)
    ensures player.Id() == currentPresidentId ==> s == "Cannot investigate self"
    ensures player.Id() != currentPresidentId && player.Id() in alreadyInvestigated ==> s == "Already investigated"
    ensures player.Id() != currentPresidentId && player.Id() !in alreadyInvestigated ==> s == "Eligible for investigation"
  {
    if player.Id() == currentPresidentId then "Cannot investigate self"
    else if player.Id() in alreadyInvestigated then "Already investigated"
    else "Eligible for investigation"
  }

  /** A player has an Investigate button exactly when their status line says they are eligible. */
  lemma CanInvestigateIffEligible(player: GamePlayer, currentPresidentId: string, alreadyInvestigated: seq<string>)
    ensures CanInvestigate(player, currentPresidentId, alreadyInvestigated) <==>
            InvestigationStatus(player, currentPresidentId, alreadyInvestigated) == "Eligible for investigation"
  {
  }

  /**
   * When the picker is shown to the room's president with the keys of the
   * room's `investigations` object, an eligible player who is in the room
   * and has a role is exactly one the room hook accepts.
   */
  lemma EligibleMeansHookAccepts(doc: RoomDoc, uid: string, player: GamePlayer, alreadyInvestigated: seq<string>)
    requires doc.metadata.currentPresidentId == Some(uid)
    requires forall t :: t in alreadyInvestigated <==> t in doc.investigations
    requires HasPlayer(doc.players, player.Id()) && player.Id() in doc.roles
    ensures CanInvestigate(player, uid, alreadyInvestigated) <==>
            InvestigateError(Some(doc), Some(uid), player.Id()).None?
  {
  }

  /**
   * The game room page shows the picker with an empty `currentPresidentId`.
   * The president, when not yet investigated, is then offered as a target,
   * and the room hook is what refuses them.
   */
  lemma EmptyPresidentIdOffersSelf(doc: RoomDoc, uid: string, player: GamePlayer, alreadyInvestigated: seq<string>)
    requires doc.metadata.currentPresidentId == Some(uid) && uid != ""
    requires player.Id() == uid && HasPlayer(doc.players, uid) && uid !in alreadyInvestigated
    ensures CanInvestigate(player, "", alreadyInvestigated)
    ensures InvestigationStatus(player, "", alreadyInvestigated) == "Eligible for investigation"
    ensures InvestigateError(Some(doc), Some(uid), player.Id()) == Some("Cannot investigate yourself")
  {
  }

  class Picker {
    const currentPresidentId: string
    /** The room hook's `loading` flag, passed in as a prop. */
    const loading: bool
    const alreadyInvestigated: seq<string>
    var investigating: bool

    constructor(currentPresidentId: string, loading: bool, alreadyInvestigated: seq<string>)
      ensures this.currentPresidentId == currentPresidentId && this.loading == loading
      ensures this.alreadyInvestigated == alreadyInvestigated
      ensures !investigating
    {
      this.currentPresidentId := currentPresidentId;
      this.loading := loading;
      this.alreadyInvestigated := alreadyInvestigated;
      investigating := false;
    }

    /**
     * `handleInvestigate(targetId)` with the room hook's `investigatePlayer`
     * as the callback: nothing happens while busy; otherwise the callback
     * runs with the flag set, its failure is swallowed, and the flag is
     * cleared again. `started` says whether the callback ran.
     */
    method HandleInvestigate(client: RoomClient, targetId: string, idStamp: int, now: int) returns (started: bool)
      requires client.store.Valid()
      modifies this, client.store
      ensures client.store.Valid()
      ensures started <==> !loading && !old(investigating)
      ensures !started ==> investigating == old(investigating) && client.store.rooms == old(client.store.rooms)
      ensures started ==> !investigating
      ensures started ==>
        var e := InvestigateError(old(client.Room()), client.user, targetId);
        client.store.rooms ==
          if e.None? then old(client.store.rooms)[client.roomId.value :=
                            Investigated(old(client.Room()).value, client.user.value, targetId, idStamp, now)]
          else old(client.store.rooms)
    {
      if loading || investigating {
        return false;
      }
      investigating := true;
      var o := client.InvestigatePlayer(targetId, idStamp, now);
      investigating := false;
      return true;
    }
  }
}

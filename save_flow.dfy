/**
 * What a save in the batting-order dialog does to the stored players: the update list of
 * `handleSave` (components/BattingOrderManager.tsx) applied by `PUT /api/players/batch`
 * (app/api/players/batch/route.ts).
 */
module SaveFlow {
  import opened Wrappers
  import opened PlayerModel
  import opened BatchUpdate
  import opened BattingOrder

  /** The dialog lists each player once. */
  predicate DistinctPlayers(ordered: seq<Player>) {
    forall a, b :: 0 <= a < b < |ordered| ==> ordered[a].id != ordered[b].id
  }

  /** The stored players after saving `ordered`. */
  function AfterSave(m: Store, ordered: seq<Player>): (r: Store)
    ensures forall q :: q in r <==> q in m
  {
    ApplyUpdates(m, SaveUpdates(ordered))
  }

  /** The save list of a list of distinct players names each player at most once. */
  lemma SaveIdsDistinct(ordered: seq<Player>)
    requires DistinctPlayers(ordered)
    ensures DistinctIds(SaveUpdates(ordered))
  {
  }

  /**
   * Each of the first 11 listed players gets its 1-based position as its batting order and
   * nothing else changes on it; a listed player from position 12 on is left exactly as stored.
   */
  lemma {:induction false} SaveSetsPositions(m: Store, ordered: seq<Player>, i: nat)
    requires DistinctPlayers(ordered) && i < |ordered| && ordered[i].id in m
    ensures i < OrderedSlots ==>
              AfterSave(m, ordered)[ordered[i].id] == m[ordered[i].id].(battingOrder := Some(i + 1))
    ensures OrderedSlots <= i ==> AfterSave(m, ordered)[ordered[i].id] == m[ordered[i].id]
  {
    var us := SaveUpdates(ordered);
    if i < OrderedSlots {
      SaveIdsDistinct(ordered);
      DistinctUpdateLands(m, us, i);
    } else {
      SaveSkipsPastEleven(ordered, i);
      UnnamedPlayerUnchanged(m, us, ordered[i].id);
    }
  }

  /** A stored player the dialog does not list is left exactly as stored. */
  lemma SaveLeavesUnlisted(m: Store, ordered: seq<Player>, id: PlayerId)
    requires id in m && !Lists(ordered, id)
    ensures AfterSave(m, ordered)[id] == m[id]
  {
    SaveSkipsTail(ordered, id);
    UnnamedPlayerUnchanged(m, SaveUpdates(ordered), id);
  }

  /** Every stored player after a save is either as it was or as it was with a batting order in 1..11. */
  lemma SaveChangesOnlyOrders(m: Store, ordered: seq<Player>, id: PlayerId)
    requires DistinctPlayers(ordered) && id in m
    ensures || AfterSave(m, ordered)[id] == m[id]
            || exists v :: 1 <= v <= OrderedSlots && AfterSave(m, ordered)[id] == m[id].(battingOrder := Some(v))
  {
    if Lists(ordered, id) {
      var i :| 0 <= i < |ordered| && ordered[i].id == id;
      SaveSetsPositions(m, ordered, i);
      if i < OrderedSlots {
        assert AfterSave(m, ordered)[id] == m[id].(battingOrder := Some(i + 1));
      }
    } else {
      SaveLeavesUnlisted(m, ordered, id);
    }
  }

  /** A save keeps every schema-valid player schema-valid, although the batch route runs no validators. */
  lemma SaveKeepsPlayersValid(m: Store, ordered: seq<Player>)
    requires DistinctPlayers(ordered)
    requires forall id :: id in m ==> ValidPlayer(m[id])
    ensures forall id :: id in AfterSave(m, ordered) ==> ValidPlayer(AfterSave(m, ordered)[id])
  {
    forall id | id in AfterSave(m, ordered) ensures ValidPlayer(AfterSave(m, ordered)[id]) {
      SaveChangesOnlyOrders(m, ordered, id);
    }
  }

  /** The batting orders the stored players of one team hold. */
  function TeamOrders(m: Store, team: TeamId): set<int> {
    set id | id in m && m[id].teamId == team && m[id].battingOrder.Some? :: m[id].battingOrder.value
  }

  /**
   * For a team of at most 11 players, all listed in the dialog, the team's batting orders after
   * a save are exactly 1..n: no gaps and, since each player holds one order, no duplicates.
   */
  lemma SmallTeamOrdersDense(m: Store, ordered: seq<Player>, team: TeamId)
    requires DistinctPlayers(ordered) && |ordered| <= OrderedSlots
    requires forall id :: id in m && m[id].teamId == team <==> Lists(ordered, id)
    ensures forall v :: v in TeamOrders(AfterSave(m, ordered), team) <==> 1 <= v <= |ordered|
  {
    var r := AfterSave(m, ordered);
    forall v | v in TeamOrders(r, team) ensures 1 <= v <= |ordered| {
      var id :| id in r && r[id].teamId == team && r[id].battingOrder.Some? && r[id].battingOrder.value == v;
      if Lists(ordered, id) {
        var i :| 0 <= i < |ordered| && ordered[i].id == id;
        SaveSetsPositions(m, ordered, i);
      } else {
        SaveLeavesUnlisted(m, ordered, id);
        assert false;
      }
    }
    forall v | 1 <= v <= |ordered| ensures v in TeamOrders(r, team) {
      var id := ordered[v - 1].id;
      assert Lists(ordered, id);
      SaveSetsPositions(m, ordered, v - 1);
      assert r[id].teamId == team && r[id].battingOrder == Some(v);
    }
  }

  /**
   * A player listed from position 12 on keeps a stale order, which can equal the order the save
   * gives another player: after the save, two players share batting order `v`.
   */
  lemma StaleOrderCollides(m: Store, ordered: seq<Player>, i: nat, v: int)
    requires DistinctPlayers(ordered) && OrderedSlots <= i < |ordered|
    requires forall k :: 0 <= k < |ordered| ==> ordered[k].id in m
    requires 1 <= v <= OrderedSlots && m[ordered[i].id].battingOrder == Some(v)
    ensures ordered[v - 1].id != ordered[i].id
    ensures AfterSave(m, ordered)[ordered[v - 1].id].battingOrder == Some(v)
    ensures AfterSave(m, ordered)[ordered[i].id].battingOrder == Some(v)
  {
    SaveSetsPositions(m, ordered, v - 1);
    SaveSetsPositions(m, ordered, i);
  }
}

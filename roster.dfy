/**
 * The player collection as the two write routes see it: `PUT /api/players/batch`
 * (app/api/players/batch/route.ts) and `POST /api/players` (app/api/players/route.ts).
 * Each request runs to completion as one sequential step.
 */
module Roster {
  import opened Wrappers
  import opened PlayerModel
  import opened BatchUpdate
  import opened PlayerCreate

  class RosterStore {
    /** The player documents by `_id`. */
    var players: Store

    ghost predicate Valid()
      reads this
    {
      KeyedById(players)
    }

    /** An empty collection. */
    constructor ()
      ensures Valid() && players == map[]
    {
      players := map[];
    }

    /**
     * `PUT /api/players/batch`: a body that is not an array gets 400 and writes nothing;
     * otherwise each element's `$set` is applied to the player with its `_id`, in order, and
     * success is reported once all of them are applied.
     */
    method BatchPut(body: BatchBody) returns (reply: BatchReply)
      requires Valid()
      modifies this
      ensures Valid()
      ensures reply == BatchReplyFor(body)
      ensures body.NotAnArray? ==> players == old(players)
      ensures body.UpdateList? ==> players == ApplyUpdates(old(players), body.updates)
    {
      if body.NotAnArray? {
        return BatchBadRequest(NotAnArrayError);
      }
      var us := body.updates;
      var i := 0;
      while i < |us|
        invariant 0 <= i <= |us|
        invariant players == ApplyUpdates(old(players), us[..i])
      {
        var u := us[i];
        if u.id in players {
          players := players[u.id := SetFields(players[u.id], u.patch)];
        }
        assert us[..i + 1][..i] == us[..i];
        i := i + 1;
      }
      assert us[..|us|] == us;
      reply := Updated;
    }

    /**
     * `POST /api/players` with `ids` the `_id`s the store hands out: the bulk branch checks
     * every element, then inserts all or nothing; the single branch checks the fields, clears
     * the team's captains when `isCaptain` is true, and then creates the player.
     */
    method PostPlayers(body: CreateBody, ids: seq<PlayerId>) returns (reply: CreateReply)
      requires Valid() && FreshIds(players, body, ids)
      modifies this
      ensures Valid()
      ensures (players, reply) == Create(old(players), body, ids)
    {
      match body
      case Many(items) =>
        reply := PostMany(items, ids);
      case One(item) =>
        reply := PostOne(item, ids[0]);
    }

    /** The bulk branch of `POST /api/players`. */
    method PostMany(items: seq<PlayerInput>, ids: seq<PlayerId>) returns (reply: CreateReply)
      requires Valid() && FreshIds(players, Many(items), ids)
      modifies this
      ensures Valid()
      ensures (players, reply) == CreateMany(old(players), items, ids)
    {
      var ok := AllHaveRequired(items);
      if !ok {
        return BadRequest(BulkMissingFields);
      }
      var cs := CastAll(items, ids);
      if !AllStored(cs) {
        return ServerError;
      }
      InsertAllKeyed(players, cs);
      players := InsertAll(players, cs);
      reply := Created(ids);
    }

    /** The single branch of `POST /api/players`. */
    method PostOne(item: PlayerInput, id: PlayerId) returns (reply: CreateReply)
      requires Valid() && id !in players
      modifies this
      ensures Valid()
      ensures (players, reply) == CreateOne(old(players), item, id)
    {
      CreateOneKeyed(players, item, id);
      if !HasRequired(item) {
        return BadRequest(SingleMissingFields);
      }
      if item.isCaptain == Some(true) {
        players := ClearCaptains(players, item.teamId.value);
      }
      var cast := ApplySchema(SingleInput(item), id);
      if cast.Invalid? {
        return ServerError;
      }
      players := players[id := cast.player];
      reply := Created([id]);
    }
  }
}

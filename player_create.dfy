/**
 * `POST /api/players` (app/api/players/route.ts): bulk creation from an array body, single
 * creation from an object body. Each request is one sequential step on the store; what the
 * step does is stated here as functions, and `Roster.RosterStore.PostPlayers` performs it.
 */
module PlayerCreate {
  import opened Wrappers
  import opened PlayerModel
  import opened BatchUpdate
  import opened Text

  /** The parsed JSON body: an array of players, or one player object. */
  datatype CreateBody = Many(items: seq<PlayerInput>) | One(item: PlayerInput)

  /** The route's replies: 201 with the new ids, 400 with a message, 500 when the schema rejects a document. */
  datatype CreateReply = Created(ids: seq<PlayerId>) | BadRequest(error: string) | ServerError

  const BulkMissingFields := "Each player must have name, teamId, and playingRole"
  const SingleMissingFields := "Name, teamId, and playingRole are required"

  /** The HTTP status of a reply. */
  function Status(r: CreateReply): (code: nat)
    ensures code == 201 || code == 400 || code == 500
    ensures code == 201 <==> r.Created?
  {
    match r
    case Created(_) => 201
    case BadRequest(_) => 400
    case ServerError => 500
  }

  /**
   * `!player.name || !player.teamId || !player.playingRole` is false: all three are present and
   * non-empty.
   */
  predicate HasRequired(p: PlayerInput) {
    && p.name.Some? && p.name.value != ""
    && p.teamId.Some? && p.teamId.value != ""
    && p.playingRole.Some? && p.playingRole.value != ""
  }

  /** The route's check is weaker than the schema's: whatever the schema accepts passes it. */
  lemma SchemaImpliesRequired(p: PlayerInput)
    ensures SchemaErrors(p) == {} ==> HasRequired(p)
  {
  }

  /** Every element of a bulk body has the three required fields. */
  predicate AllRequired(items: seq<PlayerInput>) {
    forall i :: 0 <= i < |items| ==> HasRequired(items[i])
  }

  /**
   * The bulk branch's `for (const player of body)` check: it returns at the first element
   * lacking a required field, so the answer is whether every element has them all.
   */
  method AllHaveRequired(items: seq<PlayerInput>) returns (ok: bool)
    ensures ok <==> AllRequired(items)
  {
    var i := 0;
    while i < |items|
      invariant 0 <= i <= |items|
      invariant forall k :: 0 <= k < i ==> HasRequired(items[k])
    {
      if !HasRequired(items[i]) {
        return false;
      }
      i := i + 1;
    }
    return true;
  }

  /**
   * `updateMany({ teamId, isCaptain: true }, { isCaptain: false })`: afterwards the team has no
   * captain; players of other teams, and every field but `isCaptain`, are untouched.
   */
  function ClearCaptains(m: Store, team: TeamId): (r: Store)
    ensures forall q :: q in r <==> q in m
    ensures forall id :: id in r && r[id].teamId == team ==> !r[id].isCaptain
    ensures forall id :: id in m && m[id].teamId != team ==> r[id] == m[id]
    ensures forall id :: id in m ==> r[id].(isCaptain := m[id].isCaptain) == m[id]
    ensures KeyedById(m) ==> KeyedById(r)
  {
    map id | id in m :: if m[id].teamId == team && m[id].isCaptain then m[id].(isCaptain := false) else m[id]
  }

  /** Clearing twice is clearing once. */
  lemma ClearCaptainsIdempotent(m: Store, team: TeamId)
    ensures ClearCaptains(ClearCaptains(m, team), team) == ClearCaptains(m, team)
  {
  }

  /**
   * The object the single branch passes to `Player.create`: the destructured fields, with
   * `isCaptain || false` and `isWicketKeeper || false`.
   */
  function SingleInput(body: PlayerInput): (d: PlayerInput)
    ensures d.isCaptain.Some? && d.isWicketKeeper.Some?
    ensures d.isCaptain.value == (body.isCaptain == Some(true))
    ensures d.isWicketKeeper.value == (body.isWicketKeeper == Some(true))
    ensures d.(isCaptain := body.isCaptain, isWicketKeeper := body.isWicketKeeper) == body
  {
    body.(isCaptain := Some(body.isCaptain == Some(true)),
          isWicketKeeper := Some(body.isWicketKeeper == Some(true)))
  }

  /** The ids are distinct, unused in `m`, and as many as the body needs. */
  predicate FreshIds(m: Store, body: CreateBody, ids: seq<PlayerId>) {
    && |ids| == (if body.Many? then |body.items| else 1)
    && (forall i, j :: 0 <= i < j < |ids| ==> ids[i] != ids[j])
    && (forall i :: 0 <= i < |ids| ==> ids[i] !in m)
  }

  /**
   * The single branch: missing fields give 400 and no write; otherwise a truthy `isCaptain`
   * clears the team's captains first, and only then does the schema validate the document,
   * so a schema failure (500) leaves the clearing in place.
   */
  function CreateOne(m: Store, body: PlayerInput, id: PlayerId): (r: (Store, CreateReply))
    ensures r.1.BadRequest? <==> !HasRequired(body)
    ensures r.1.BadRequest? ==> r.0 == m
    ensures r.1.Created? <==> HasRequired(body) && ApplySchema(SingleInput(body), id).Stored?
    ensures forall q :: q in r.0 <==> q in m || (r.1.Created? && q == id)
    ensures r.1.Created? ==> r.1.ids == [id] && Stored(r.0[id]) == ApplySchema(SingleInput(body), id)
  {
    if !HasRequired(body) then (m, BadRequest(SingleMissingFields))
    else
      var cleared := if body.isCaptain == Some(true) then ClearCaptains(m, body.teamId.value) else m;
      match ApplySchema(SingleInput(body), id)
      case Invalid(_) => (cleared, ServerError)
      case Stored(p) => (cleared[id := p], Created([id]))
  }

  /** What the schema makes of each element of a bulk body. */
  function CastAll(items: seq<PlayerInput>, ids: seq<PlayerId>): (cs: seq<Cast>)
    requires |ids| == |items|
    ensures |cs| == |items|
    ensures forall i :: 0 <= i < |cs| ==> cs[i] == ApplySchema(items[i], ids[i])
  {
    seq(|items|, i requires 0 <= i < |items| => ApplySchema(items[i], ids[i]))
  }

  /** The schema accepted every element. */
  predicate AllStored(cs: seq<Cast>) {
    forall i :: 0 <= i < |cs| ==> cs[i].Stored?
  }

  /** `m` with each stored document of `cs` added under its id. */
  function InsertAll(m: Store, cs: seq<Cast>): (r: Store)
    requires AllStored(cs)
    ensures forall i :: 0 <= i < |cs| ==> cs[i].player.id in r
    ensures forall q :: q in m ==> q in r
    ensures forall q :: q in r && q !in m ==> exists i :: 0 <= i < |cs| && cs[i].player.id == q
    decreases |cs|
  {
    if cs == [] then m
    else InsertAll(m, cs[..|cs| - 1])[cs[|cs| - 1].player.id := cs[|cs| - 1].player]
  }

  /** Inserting documents each under its own id keeps the store keyed by id. */
  lemma {:induction false} InsertAllKeyed(m: Store, cs: seq<Cast>)
    requires AllStored(cs)
    requires KeyedById(m)
    ensures KeyedById(InsertAll(m, cs))
    decreases |cs|
  {
    if cs != [] {
      InsertAllKeyed(m, cs[..|cs| - 1]);
    }
  }

  /**
   * The bulk branch: a single element missing a required field gives 400 and no write;
   * `insertMany` validates every document first and inserts none if one fails (500); otherwise
   * all are inserted, as given, with no captain clearing.
   */
  function CreateMany(m: Store, items: seq<PlayerInput>, ids: seq<PlayerId>): (r: (Store, CreateReply))
    requires |ids| == |items|
    ensures r.1.BadRequest? <==> !AllRequired(items)
    ensures !r.1.Created? ==> r.0 == m
    ensures r.1.Created? ==> r.1.ids == ids && (forall q :: q in m ==> q in r.0)
    ensures r.1.Created? ==> forall i :: 0 <= i < |ids| ==> ids[i] in r.0
    ensures r.1.Created? ==> forall q :: q in r.0 && q !in m ==> q in ids
  {
    if !AllRequired(items) then (m, BadRequest(BulkMissingFields))
    else
      var cs := CastAll(items, ids);
      if !AllStored(cs) then (m, ServerError)
      else
        CastAllIds(items, ids);
        (InsertAll(m, cs), Created(ids))
  }

  /** One `POST /api/players` request: the new store and the reply. */
  function Create(m: Store, body: CreateBody, ids: seq<PlayerId>): (r: (Store, CreateReply))
    requires FreshIds(m, body, ids)
    ensures r.1.BadRequest? ==> r.0 == m
    ensures r.1.Created? ==> r.1.ids == ids && (forall q :: q in m ==> q in r.0)
    ensures r.1.Created? ==> forall q :: q in r.0 ==> q in m || q in ids
    ensures r.1.Created? ==> forall i :: 0 <= i < |ids| ==> ids[i] in r.0
    ensures !r.1.Created? ==> forall q :: q in r.0 <==> q in m
  {
    match body
    case Many(items) => CreateMany(m, items, ids)
    case One(item) =>
      assert ids == [ids[0]];
      CreateOne(m, item, ids[0])
  }

  /** A single create keeps the store keyed by id. */
  lemma CreateOneKeyed(m: Store, body: PlayerInput, id: PlayerId)
    requires KeyedById(m) && id !in m
    ensures KeyedById(CreateOne(m, body, id).0)
  {
  }

  /** A 400 reply comes with no write at all. */
  lemma BadRequestWritesNothing(m: Store, body: CreateBody, ids: seq<PlayerId>)
    requires FreshIds(m, body, ids)
    ensures Create(m, body, ids).1.BadRequest? ==> Create(m, body, ids).0 == m
    ensures Create(m, body, ids).1.BadRequest? <==>
              if body.Many? then !AllRequired(body.items)
              else !HasRequired(body.item)
  {
  }

  /**
   * A successful single create whose `isCaptain` is true leaves the new player as the only
   * captain of its team; the team's other players lose only the flag.
   */
  lemma SingleCaptainIsUnique(m: Store, body: PlayerInput, id: PlayerId)
    requires id !in m && body.isCaptain == Some(true)
    requires CreateOne(m, body, id).1.Created?
    ensures var r := CreateOne(m, body, id).0;
            && id in r && r[id].isCaptain && r[id].teamId == body.teamId.value
            && forall q :: q in r && r[q].teamId == r[id].teamId && r[q].isCaptain ==> q == id
  {
    var cast := ApplySchema(SingleInput(body), id);
    assert cast.Stored?;
  }

  /**
   * Whatever its outcome, a single create changes no player of another team, and changes no
   * existing player at all when `isCaptain` is not true. A stored player keeps everything but
   * the captain flag.
   */
  lemma SingleCreateFrame(m: Store, body: PlayerInput, id: PlayerId, q: PlayerId)
    requires id !in m && q in m
    ensures var r := CreateOne(m, body, id).0;
            && q in r
            && r[q].(isCaptain := m[q].isCaptain) == m[q]
            && (body.isCaptain != Some(true) ==> r[q] == m[q])
            && (body.teamId.Some? && m[q].teamId != body.teamId.value ==> r[q] == m[q])
  {
  }

  /** The clearing is not undone when the schema then rejects the document: the request fails with 500 and the team is left with no captain. */
  lemma FailedCaptainCreateKeepsClearing(m: Store, body: PlayerInput, id: PlayerId)
    requires HasRequired(body) && body.isCaptain == Some(true)
    requires SchemaErrors(SingleInput(body)) != {}
    ensures CreateOne(m, body, id) == (ClearCaptains(m, body.teamId.value), ServerError)
    ensures forall q :: q in CreateOne(m, body, id).0 && CreateOne(m, body, id).0[q].teamId == body.teamId.value ==>
              !CreateOne(m, body, id).0[q].isCaptain
  {
  }

  /** The created player carries the defaults: `isCaptain`/`isWicketKeeper` false when absent, and the given `battingOrder` with no uniqueness check. */
  lemma SingleCreateDefaults(m: Store, body: PlayerInput, id: PlayerId)
    requires CreateOne(m, body, id).1.Created?
    ensures var p := CreateOne(m, body, id).0[id];
            && (body.isCaptain.None? ==> !p.isCaptain)
            && (body.isWicketKeeper.None? ==> !p.isWicketKeeper)
            && p.battingOrder == body.battingOrder
            && ValidPlayer(p)
  {
    assert ApplySchema(SingleInput(body), id).Stored?;
  }

  /** A bulk create that fails writes nothing. */
  lemma BulkFailureWritesNothing(m: Store, items: seq<PlayerInput>, ids: seq<PlayerId>)
    requires |ids| == |items|
    requires !CreateMany(m, items, ids).1.Created?
    ensures CreateMany(m, items, ids).0 == m
  {
  }

  /** In a successful bulk create the schema has accepted every element. */
  lemma BulkCreatedAllStored(m: Store, items: seq<PlayerInput>, ids: seq<PlayerId>)
    requires |ids| == |items| && CreateMany(m, items, ids).1.Created?
    ensures AllStored(CastAll(items, ids))
  {
  }

  /** The store after a successful bulk create is the insertion of every element. */
  lemma BulkCreatedStore(m: Store, items: seq<PlayerInput>, ids: seq<PlayerId>)
    requires |ids| == |items| && CreateMany(m, items, ids).1.Created?
    requires AllStored(CastAll(items, ids))
    ensures CreateMany(m, items, ids).0 == InsertAll(m, CastAll(items, ids))
  {
    assert AllRequired(items);
  }

  /** Each document the schema makes from a bulk body carries the id handed out for its element. */
  lemma CastAllIds(items: seq<PlayerInput>, ids: seq<PlayerId>)
    requires |ids| == |items|
    requires AllStored(CastAll(items, ids))
    ensures forall k :: 0 <= k < |items| ==> CastAll(items, ids)[k].player.id == ids[k]
  {
  }

  /** A bulk create that succeeds inserts every element, under its own id, as the schema makes it. */
  lemma BulkSuccessInsertsAll(m: Store, items: seq<PlayerInput>, ids: seq<PlayerId>, i: nat)
    requires FreshIds(m, Many(items), ids) && i < |items|
    requires CreateMany(m, items, ids).1.Created?
    ensures ids[i] in CreateMany(m, items, ids).0
    ensures Stored(CreateMany(m, items, ids).0[ids[i]]) == ApplySchema(items[i], ids[i])
  {
    var cs := CastAll(items, ids);
    BulkCreatedAllStored(m, items, ids);
    BulkCreatedStore(m, items, ids);
    CastAllIds(items, ids);
    InsertAllLookup(m, cs, i);
  }

  /** A bulk create that succeeds keeps every existing player as it was. */
  lemma BulkSuccessKeepsExisting(m: Store, items: seq<PlayerInput>, ids: seq<PlayerId>, q: PlayerId)
    requires FreshIds(m, Many(items), ids) && q in m
    requires CreateMany(m, items, ids).1.Created?
    ensures q in CreateMany(m, items, ids).0 && CreateMany(m, items, ids).0[q] == m[q]
  {
    var cs := CastAll(items, ids);
    BulkCreatedAllStored(m, items, ids);
    BulkCreatedStore(m, items, ids);
    CastAllIds(items, ids);
    InsertAllKeeps(m, cs, q);
  }

  /** A bulk body whose elements all have the required fields and pass the schema is created in full. */
  lemma BulkCreatedWhenAllValid(m: Store, items: seq<PlayerInput>, ids: seq<PlayerId>)
    requires |ids| == |items|
    requires forall i :: 0 <= i < |items| ==> HasRequired(items[i]) && SchemaErrors(items[i]) == {}
    ensures CreateMany(m, items, ids).1 == Created(ids)
  {
    assert AllRequired(items);
    assert forall i :: 0 <= i < |items| ==> ApplySchema(items[i], ids[i]).Stored? by {
      forall i | 0 <= i < |items| ensures ApplySchema(items[i], ids[i]).Stored? {
        assert SchemaErrors(items[i]) == {};
      }
    }
    BulkChecksPass(m, items, ids);
  }

  /** The two checks of the bulk branch, stated on the checks themselves. */
  lemma BulkChecksPass(m: Store, items: seq<PlayerInput>, ids: seq<PlayerId>)
    requires |ids| == |items|
    requires AllRequired(items)
    requires forall i :: 0 <= i < |items| ==> ApplySchema(items[i], ids[i]).Stored?
    ensures CreateMany(m, items, ids).1 == Created(ids)
  {
    var cs := CastAll(items, ids);
    assert AllStored(cs);
  }

  /** One element lacking a required field or failing the schema makes the whole bulk create fail. */
  lemma BulkFailsOnOneBadItem(m: Store, items: seq<PlayerInput>, ids: seq<PlayerId>, i: nat)
    requires |ids| == |items| && i < |items|
    requires !HasRequired(items[i]) || SchemaErrors(items[i]) != {}
    ensures !CreateMany(m, items, ids).1.Created?
  {
    var cs := CastAll(items, ids);
    if HasRequired(items[i]) {
      assert cs[i].Invalid?;
      assert !AllStored(cs);
    } else {
      assert !AllRequired(items);
    }
  }

  /** A bulk create succeeds exactly when every element has the required fields and passes the schema. */
  lemma BulkCreatedIff(m: Store, items: seq<PlayerInput>, ids: seq<PlayerId>)
    requires |ids| == |items|
    ensures CreateMany(m, items, ids).1.Created? <==>
              forall i :: 0 <= i < |items| ==> HasRequired(items[i]) && SchemaErrors(items[i]) == {}
  {
    if forall i :: 0 <= i < |items| ==> HasRequired(items[i]) && SchemaErrors(items[i]) == {} {
      BulkCreatedWhenAllValid(m, items, ids);
    } else {
      var i :| 0 <= i < |items| && !(HasRequired(items[i]) && SchemaErrors(items[i]) == {});
      BulkFailsOnOneBadItem(m, items, ids, i);
    }
  }

  /** The `i`-th inserted document is found under its id when the ids are distinct. */
  lemma {:induction false} InsertAllLookup(m: Store, cs: seq<Cast>, i: nat)
    requires AllStored(cs)
    requires forall a, b :: 0 <= a < b < |cs| ==> cs[a].player.id != cs[b].player.id
    requires i < |cs|
    ensures InsertAll(m, cs)[cs[i].player.id] == cs[i].player
    decreases |cs|
  {
    if i < |cs| - 1 {
      InsertAllLookup(m, cs[..|cs| - 1], i);
    }
  }

  /** Inserting documents under fresh ids keeps every existing document. */
  lemma {:induction false} InsertAllKeeps(m: Store, cs: seq<Cast>, q: PlayerId)
    requires AllStored(cs) && forall k :: 0 <= k < |cs| ==> cs[k].player.id != q
    requires q in m
    ensures q in InsertAll(m, cs) && InsertAll(m, cs)[q] == m[q]
    decreases |cs|
  {
    if cs != [] {
      InsertAllKeeps(m, cs[..|cs| - 1], q);
    }
  }

  /**
   * Bulk creation does no captain clearing: when a successful bulk create holds two elements
   * marked captain for one team, both are stored as captains of that team.
   */
  lemma BulkMayCreateTwoCaptains(m: Store, items: seq<PlayerInput>, ids: seq<PlayerId>, i: nat, j: nat)
    requires FreshIds(m, Many(items), ids) && i < j < |items|
    requires CreateMany(m, items, ids).1.Created?
    requires items[i].isCaptain == Some(true) && items[j].isCaptain == Some(true)
    requires items[i].teamId == items[j].teamId
    ensures var r := CreateMany(m, items, ids).0;
            && ids[i] != ids[j] && ids[i] in r && ids[j] in r
            && r[ids[i]].isCaptain && r[ids[j]].isCaptain
            && r[ids[i]].teamId == r[ids[j]].teamId
  {
    BulkSuccessInsertsAll(m, items, ids, i);
    BulkSuccessInsertsAll(m, items, ids, j);
    ApplySchemaFields(items[i], ids[i]);
    ApplySchemaFields(items[j], ids[j]);
  }
}

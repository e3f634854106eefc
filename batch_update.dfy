/**
 * `PUT /api/players/batch` (app/api/players/batch/route.ts): every element of the body becomes
 * `updateOne({ _id }, { $set: element })`, and the operations are applied one after the other.
 * This module states what `$set` does to one document and what the whole list does to the
 * store; the route itself is `Roster.RosterStore.BatchPut`.
 */
module BatchUpdate {
  import opened Wrappers
  import opened PlayerModel
  import opened Text

  /** The settable fields of a player document (the `_id` is the filter, never changed). */
  datatype Field = NameField | ImageField | CityField | CaptainField | KeeperField | RoleField | TeamField | OrderField

  /** The fields one body element supplies; an absent field is not touched by `$set`. */
  datatype Patch = Patch(
    name: Option<string>,
    imageUrl: Option<string>,
    city: Option<string>,
    isCaptain: Option<bool>,
    isWicketKeeper: Option<bool>,
    playingRole: Option<Role>,
    teamId: Option<TeamId>,
    battingOrder: Option<int>)

  /** One body element: the `_id` it names and the fields it sets. */
  datatype Update = Update(id: PlayerId, patch: Patch)

  /** The parsed JSON body: an array of updates, or anything else. */
  datatype BatchBody = UpdateList(updates: seq<Update>) | NotAnArray

  /** The route's replies: 200 after the bulk write, or 400 with a message. */
  datatype BatchReply = Updated | BatchBadRequest(error: string)

  const NotAnArrayError := "Request body must be an array of player updates"

  /** The reply for a body: 400 exactly when the body is not an array. */
  function BatchReplyFor(body: BatchBody): (r: BatchReply)
    ensures r.BatchBadRequest? <==> body.NotAnArray?
  {
    if body.NotAnArray? then BatchBadRequest(NotAnArrayError) else Updated
  }

  /** The store: player documents by `_id`. */
  type Store = map<PlayerId, Player>

  /** Every document is filed under its own `_id`. */
  predicate KeyedById(m: Store) {
    forall id :: id in m ==> m[id].id == id
  }

  /** Whether the patch supplies field `f`. */
  predicate IsSupplied(u: Patch, f: Field) {
    match f
    case NameField => u.name.Some?
    case ImageField => u.imageUrl.Some?
    case CityField => u.city.Some?
    case CaptainField => u.isCaptain.Some?
    case KeeperField => u.isWicketKeeper.Some?
    case RoleField => u.playingRole.Some?
    case TeamField => u.teamId.Some?
    case OrderField => u.battingOrder.Some?
  }

  /** Whether two versions of a document differ on field `f`. */
  predicate Differs(p: Player, q: Player, f: Field) {
    match f
    case NameField => p.name != q.name
    case ImageField => p.imageUrl != q.imageUrl
    case CityField => p.city != q.city
    case CaptainField => p.isCaptain != q.isCaptain
    case KeeperField => p.isWicketKeeper != q.isWicketKeeper
    case RoleField => p.playingRole != q.playingRole
    case TeamField => p.teamId != q.teamId
    case OrderField => p.battingOrder != q.battingOrder
  }

  /**
   * `q` holds every value the patch supplies, after the schema's setters: `name` and `city`
   * are declared with `trim: true`, and Mongoose applies that setter to `$set` values too.
   */
  predicate Carries(q: Player, u: Patch) {
    && (u.name.Some? ==> q.name == Trim(u.name.value))
    && (u.imageUrl.Some? ==> q.imageUrl == u.imageUrl)
    && (u.city.Some? ==> q.city == Some(Trim(u.city.value)))
    && (u.isCaptain.Some? ==> q.isCaptain == u.isCaptain.value)
    && (u.isWicketKeeper.Some? ==> q.isWicketKeeper == u.isWicketKeeper.value)
    && (u.playingRole.Some? ==> q.playingRole == u.playingRole.value)
    && (u.teamId.Some? ==> q.teamId == u.teamId.value)
    && (u.battingOrder.Some? ==> q.battingOrder == u.battingOrder)
  }

  /** Two versions of one document that differ on no field are the same document. */
  lemma NoChangeIsIdentity(p: Player, q: Player)
    requires p.id == q.id && forall f :: !Differs(p, q, f)
    ensures p == q
  {
    assert !Differs(p, q, NameField) && !Differs(p, q, ImageField) && !Differs(p, q, CityField);
    assert !Differs(p, q, CaptainField) && !Differs(p, q, KeeperField) && !Differs(p, q, RoleField);
    assert !Differs(p, q, TeamField) && !Differs(p, q, OrderField);
  }

  /**
   * `{ $set: u }` on one document: the supplied fields take the supplied values (name and city
   * trimmed by their setters), nothing else changes.
   */
  function SetFields(p: Player, u: Patch): (q: Player)
    ensures q.id == p.id
    ensures Carries(q, u)
  {
    Player(p.id,
      if u.name.Some? then Trim(u.name.value) else p.name,
      if u.imageUrl.Some? then u.imageUrl else p.imageUrl,
      if u.city.Some? then Some(Trim(u.city.value)) else p.city,
      if u.isCaptain.Some? then u.isCaptain.value else p.isCaptain,
      if u.isWicketKeeper.Some? then u.isWicketKeeper.value else p.isWicketKeeper,
      if u.playingRole.Some? then u.playingRole.value else p.playingRole,
      if u.teamId.Some? then u.teamId.value else p.teamId,
      if u.battingOrder.Some? then u.battingOrder else p.battingOrder)
  }

  /** `$set` leaves every field the patch does not supply as it was. */
  lemma SetFieldsKeepsUnsupplied(p: Player, u: Patch, f: Field)
    requires !IsSupplied(u, f)
    ensures !Differs(p, SetFields(p, u), f)
  {
    match f
    case NameField =>
    case ImageField =>
    case CityField =>
    case CaptainField =>
    case KeeperField =>
    case RoleField =>
    case TeamField =>
    case OrderField =>
  }

  /**
   * No validator runs on `$set`: a name made of spaces only is trimmed and stored as "",
   * which the schema's `required` would have refused on `create`.
   */
  lemma SetBlankNameStoresEmpty(p: Player, u: Patch)
    requires u.name.Some? && AllTrimmable(u.name.value)
    ensures SetFields(p, u).name == ""
    ensures !ValidPlayer(SetFields(p, u))
  {
  }

  /**
   * `updateOne({ _id: u.id }, { $set: u.patch })`: the matched document becomes what `$set`
   * makes of it, every other document is untouched, and a filter that matches nothing
   * changes nothing.
   */
  function ApplyOne(m: Store, u: Update): (r: Store)
    ensures forall q :: q in r <==> q in m
    ensures u.id in m ==> r[u.id] == SetFields(m[u.id], u.patch)
    ensures forall q :: q in m && q != u.id ==> r[q] == m[q]
    ensures u.id !in m ==> r == m
  {
    if u.id in m then m[u.id := SetFields(m[u.id], u.patch)] else m
  }

  /** The operations of `bulkWrite`, applied in list order. */
  function ApplyUpdates(m: Store, us: seq<Update>): (r: Store)
    ensures forall q :: q in r <==> q in m
    ensures KeyedById(m) ==> KeyedById(r)
    decreases |us|
  {
    if us == [] then m else ApplyOne(ApplyUpdates(m, us[..|us| - 1]), us[|us| - 1])
  }

  /** Applying `a` then `b` is applying `a + b`. */
  lemma {:induction false} ApplyUpdatesAppend(m: Store, a: seq<Update>, b: seq<Update>)
    ensures ApplyUpdates(m, a + b) == ApplyUpdates(ApplyUpdates(m, a), b)
    decreases |b|
  {
    if b == [] {
      assert a + b == a;
    } else {
      assert (a + b)[..|a + b| - 1] == a + b[..|b| - 1];
      ApplyUpdatesAppend(m, a, b[..|b| - 1]);
    }
  }

  /** No element of `us` names `id`. */
  predicate NotNamed(us: seq<Update>, id: PlayerId) {
    forall i :: 0 <= i < |us| ==> us[i].id != id
  }

  /** A player that no update names is left exactly as it was. */
  lemma {:induction false} UnnamedPlayerUnchanged(m: Store, us: seq<Update>, id: PlayerId)
    requires id in m && NotNamed(us, id)
    ensures ApplyUpdates(m, us)[id] == m[id]
    decreases |us|
  {
    if us != [] {
      UnnamedPlayerUnchanged(m, us[..|us| - 1], id);
    }
  }

  /** Some update naming `id` supplies field `f`. */
  predicate SuppliedFor(us: seq<Update>, id: PlayerId, f: Field) {
    exists i :: 0 <= i < |us| && us[i].id == id && IsSupplied(us[i].patch, f)
  }

  /** On a named player, a field that none of its updates supplies keeps its value. */
  lemma {:induction false} UnsuppliedFieldUnchanged(m: Store, us: seq<Update>, id: PlayerId, f: Field)
    requires id in m && !SuppliedFor(us, id, f)
    ensures !Differs(m[id], ApplyUpdates(m, us)[id], f)
    decreases |us|
  {
    if us != [] {
      var init := us[..|us| - 1];
      assert !SuppliedFor(init, id, f) by {
        forall i | 0 <= i < |init| ensures !(init[i].id == id && IsSupplied(init[i].patch, f)) {
          assert init[i] == us[i];
        }
      }
      UnsuppliedFieldUnchanged(m, init, id, f);
      var last := us[|us| - 1];
      assert !(last.id == id && IsSupplied(last.patch, f));
      if last.id == id {
        SetFieldsKeepsUnsupplied(ApplyUpdates(m, init)[id], last.patch, f);
      }
    }
  }

  /** The updates whose `_id` is in the store, in their original order. */
  function KnownUpdates(m: Store, us: seq<Update>): (r: seq<Update>)
    ensures |r| <= |us|
    ensures forall i :: 0 <= i < |r| ==> r[i].id in m
    decreases |us|
  {
    if us == [] then []
    else KnownUpdates(m, us[..|us| - 1]) + (if us[|us| - 1].id in m then [us[|us| - 1]] else [])
  }

  /** On one element the filter keeps it exactly when its `_id` is stored. */
  lemma KnownUpdatesSingle(m: Store, u: Update)
    ensures KnownUpdates(m, [u]) == if u.id in m then [u] else []
  {
    assert [u][..0] == [];
  }

  /**
   * The filter distributes over concatenation. With `KnownUpdatesSingle` this fixes the result
   * completely: every element naming a stored `_id`, once, in list order.
   */
  lemma {:induction false} KnownUpdatesAppend(m: Store, a: seq<Update>, b: seq<Update>)
    ensures KnownUpdates(m, a + b) == KnownUpdates(m, a) + KnownUpdates(m, b)
    decreases |b|
  {
    if b == [] {
      assert a + b == a;
    } else {
      assert (a + b)[..|a + b| - 1] == a + b[..|b| - 1] && (a + b)[|a + b| - 1] == b[|b| - 1];
      KnownUpdatesAppend(m, a, b[..|b| - 1]);
    }
  }

  /** Updates naming an `_id` that is not stored have no effect: the route reports no not-found error for them either. */
  lemma {:induction false} UnknownIdsIgnored(m: Store, us: seq<Update>)
    ensures ApplyUpdates(m, us) == ApplyUpdates(m, KnownUpdates(m, us))
    decreases |us|
  {
    if us != [] {
      var init, last := us[..|us| - 1], us[|us| - 1];
      UnknownIdsIgnored(m, init);
      if last.id in m {
        ApplyUpdatesAppend(m, KnownUpdates(m, init), [last]);
        assert [last][..0] == [];
      } else {
        assert KnownUpdates(m, us) == KnownUpdates(m, init) + [];
        assert KnownUpdates(m, init) + [] == KnownUpdates(m, init);
        assert last.id !in ApplyUpdates(m, init);
        assert ApplyUpdates(m, us) == ApplyUpdates(m, init);
      }
    }
  }

  /** No two updates name the same `_id`. */
  predicate DistinctIds(us: seq<Update>) {
    forall i, j :: 0 <= i < j < |us| ==> us[i].id != us[j].id
  }

  /** With distinct `_id`s, each named stored player ends up as its own update's `$set` made it. */
  lemma DistinctUpdateLands(m: Store, us: seq<Update>, i: nat)
    requires DistinctIds(us) && i < |us| && us[i].id in m
    ensures ApplyUpdates(m, us)[us[i].id] == SetFields(m[us[i].id], us[i].patch)
  {
    var id := us[i].id;
    var pre, post := us[..i], us[i + 1..];
    DistinctAround(us, i);
    assert us == (pre + [us[i]]) + post;
    LastUpdateLands(m, pre, us[i]);
    ApplyUpdatesAppend(m, pre + [us[i]], post);
    UnnamedPlayerUnchanged(ApplyUpdates(m, pre + [us[i]]), post, id);
  }

  /** With distinct `_id`s, no update before or after the `i`th names its `_id`. */
  lemma DistinctAround(us: seq<Update>, i: nat)
    requires DistinctIds(us) && i < |us|
    ensures NotNamed(us[..i], us[i].id) && NotNamed(us[i + 1..], us[i].id)
  {
    var post := us[i + 1..];
    forall k | 0 <= k < |post| ensures post[k].id != us[i].id {
      assert post[k] == us[i + 1 + k];
    }
  }

  /** An update that comes after every other update naming the same `_id` leaves that document as its `$set` makes it. */
  lemma LastUpdateLands(m: Store, pre: seq<Update>, u: Update)
    requires u.id in m && NotNamed(pre, u.id)
    ensures ApplyUpdates(m, pre + [u])[u.id] == SetFields(m[u.id], u.patch)
  {
    assert (pre + [u])[..|pre|] == pre;
    UnnamedPlayerUnchanged(m, pre, u.id);
  }
}

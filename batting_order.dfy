/**
 * The batting-order dialog (components/BattingOrderManager.tsx): the seed order computed when
 * the dialog opens, the drag step that moves one player, and the update list that the save
 * button sends to `PUT /api/players/batch`.
 */
module BattingOrder {
  import opened Wrappers
  import opened PlayerModel
  import opened BatchUpdate

  /**
   * A player's batting order as the comparator's truthiness tests see it: an absent order and
   * the order 0 are both falsy, so both count as "no order".
   */
  function Rank(p: Player): Option<int> {
    if p.battingOrder.Some? && p.battingOrder.value != 0 then p.battingOrder else None
  }

  /**
   * The seed comparator: two ordered players compare by order, an ordered player comes before
   * an unordered one, and two unordered players compare equal.
   */
  function Compare(a: Player, b: Player): (c: int)
    ensures c < 0 <==> Rank(a).Some? && (Rank(b).None? || Rank(a).value < Rank(b).value)
    ensures c == 0 <==> Rank(a) == Rank(b)
  {
    if Rank(a).Some? && Rank(b).Some? then a.battingOrder.value - b.battingOrder.value
    else if Rank(a).Some? then -1
    else if Rank(b).Some? then 1
    else 0
  }

  /**
   * The comparator is consistent, as `Array.prototype.sort` requires: swapping the arguments
   * flips the sign, and "not after" is total and transitive.
   */
  lemma CompareConsistent(a: Player, b: Player, c: Player)
    ensures Compare(a, b) < 0 <==> Compare(b, a) > 0
    ensures Compare(a, b) <= 0 || Compare(b, a) <= 0
    ensures Compare(a, b) <= 0 && Compare(b, c) <= 0 ==> Compare(a, c) <= 0
  {
  }

  /** No player of `s` comes after a later one. */
  predicate Sorted(s: seq<Player>) {
    forall i, j :: 0 <= i < j < |s| ==> Compare(s[i], s[j]) <= 0
  }

  /** `x` placed before the first element of `r` it does not come after. */
  function Insert(x: Player, r: seq<Player>): (res: seq<Player>)
    ensures |res| == |r| + 1
    ensures multiset(res) == multiset(r) + multiset{x}
  {
    if r == [] then [x]
    else if Compare(x, r[0]) <= 0 then [x] + r
    else
      assert r == [r[0]] + r[1..];
      [r[0]] + Insert(x, r[1..])
  }

  /** A suffix of a sorted list is sorted. */
  lemma SortedTail(r: seq<Player>)
    requires Sorted(r) && r != []
    ensures Sorted(r[1..])
  {
    forall i, j | 0 <= i < j < |r| - 1 ensures Compare(r[1..][i], r[1..][j]) <= 0 {
      assert r[1..][i] == r[i + 1] && r[1..][j] == r[j + 1];
    }
  }

  /** A player that comes before every element of a sorted list can head it. */
  lemma SortedCons(a: Player, t: seq<Player>)
    requires Sorted(t) && forall k :: 0 <= k < |t| ==> Compare(a, t[k]) <= 0
    ensures Sorted([a] + t)
  {
    var res := [a] + t;
    forall i, j | 0 <= i < j < |res| ensures Compare(res[i], res[j]) <= 0 {
      assert res[j] == t[j - 1];
      if i > 0 {
        assert res[i] == t[i - 1];
      }
    }
  }

  /** A player that comes before `x` and before every element of `t` comes before every element of `Insert(x, t)`. */
  lemma InsertBelow(a: Player, x: Player, t: seq<Player>)
    requires Compare(a, x) <= 0 && forall k :: 0 <= k < |t| ==> Compare(a, t[k]) <= 0
    ensures forall k :: 0 <= k < |Insert(x, t)| ==> Compare(a, Insert(x, t)[k]) <= 0
  {
    var res := Insert(x, t);
    forall k | 0 <= k < |res| ensures Compare(a, res[k]) <= 0 {
      var y := res[k];
      assert y in multiset(res);
      if y != x {
        assert y in multiset(t);
        var j :| 0 <= j < |t| && t[j] == y;
      }
    }
  }

  /** Inserting into a sorted list keeps it sorted. */
  lemma {:induction false} InsertSorted(x: Player, r: seq<Player>)
    requires Sorted(r)
    ensures Sorted(Insert(x, r))
  {
    if r == [] {
    } else if Compare(x, r[0]) <= 0 {
      forall k | 0 <= k < |r| ensures Compare(x, r[k]) <= 0 {
        if k > 0 { CompareConsistent(x, r[0], r[k]); }
      }
      SortedCons(x, r);
    } else {
      var t := r[1..];
      SortedTail(r);
      InsertSorted(x, t);
      CompareConsistent(x, r[0], x);
      forall k | 0 <= k < |t| ensures Compare(r[0], t[k]) <= 0 {
        assert t[k] == r[k + 1];
      }
      InsertBelow(r[0], x, t);
      SortedCons(r[0], Insert(x, t));
    }
  }

  /**
   * The order the dialog starts from: `[...players].sort(comparator)`. `Array.prototype.sort` is
   * stable, and a stable sort by a consistent comparator has one result; this one builds it by
   * inserting each player ahead of every equal player after it.
   */
  function SeedOrder(players: seq<Player>): (r: seq<Player>)
    ensures |r| == |players|
    ensures multiset(r) == multiset(players)
    ensures Sorted(r)
  {
    if players == [] then []
    else
      assert players == [players[0]] + players[1..];
      InsertSorted(players[0], SeedOrder(players[1..]));
      Insert(players[0], SeedOrder(players[1..]))
  }

  /** The seed order puts every ordered player before every unordered one, and ordered players by ascending order. */
  lemma SeedOrderShape(players: seq<Player>, i: nat, j: nat)
    requires i < j < |players|
    ensures Rank(SeedOrder(players)[j]).Some? ==> Rank(SeedOrder(players)[i]).Some?
    ensures Rank(SeedOrder(players)[i]).Some? && Rank(SeedOrder(players)[j]).Some? ==>
              SeedOrder(players)[i].battingOrder.value <= SeedOrder(players)[j].battingOrder.value
  {
    var r := SeedOrder(players);
    assert Compare(r[i], r[j]) <= 0;
  }

  /** The players of `s` with rank `k`, in their order in `s`. */
  function OfRank(s: seq<Player>, k: Option<int>): (r: seq<Player>)
    ensures |r| <= |s|
  {
    if s == [] then []
    else (if Rank(s[0]) == k then [s[0]] else []) + OfRank(s[1..], k)
  }

  /** `OfRank` keeps exactly the players of rank `k`. */
  lemma {:induction false} OfRankMembers(s: seq<Player>, k: Option<int>, x: Player)
    ensures x in OfRank(s, k) <==> x in s && Rank(x) == k
    decreases |s|
  {
    if s != [] {
      OfRankMembers(s[1..], k, x);
      assert s == [s[0]] + s[1..];
    }
  }

  /** `OfRank` of a list with a known first element. */
  lemma OfRankCons(a: Player, t: seq<Player>, k: Option<int>)
    ensures OfRank([a] + t, k) == (if Rank(a) == k then [a] else []) + OfRank(t, k)
  {
    assert ([a] + t)[0] == a && ([a] + t)[1..] == t;
  }

  /** Inserting into a sorted list puts `x` ahead of every element of equal rank. */
  lemma {:induction false} InsertOfRank(x: Player, r: seq<Player>, k: Option<int>)
    requires Sorted(r)
    ensures OfRank(Insert(x, r), k) == (if Rank(x) == k then [x] else []) + OfRank(r, k)
  {
    if r == [] {
      OfRankCons(x, [], k);
    } else if Compare(x, r[0]) <= 0 {
      OfRankCons(x, r, k);
    } else {
      var t := Insert(x, r[1..]);
      var head: seq<Player> := if Rank(r[0]) == k then [r[0]] else [];
      SortedTail(r);
      InsertOfRank(x, r[1..], k);
      assert Insert(x, r) == [r[0]] + t;
      OfRankCons(r[0], t, k);
      assert r == [r[0]] + r[1..];
      OfRankCons(r[0], r[1..], k);
      // `x` and `r[0]` differ in rank, so at most one of them is kept and the two may swap.
      if Rank(x) == k {
        assert head == [];
        assert OfRank(r, k) == OfRank(r[1..], k);
        assert OfRank(Insert(x, r), k) == [x] + OfRank(r[1..], k);
      } else {
        assert OfRank(t, k) == OfRank(r[1..], k);
        assert OfRank(Insert(x, r), k) == head + OfRank(r[1..], k);
      }
    }
  }

  /**
   * The sort is stable: players of equal rank keep their input order. In particular the
   * unordered players (rank `None`) appear in the order `players` lists them.
   */
  lemma {:induction false} SeedOrderStable(players: seq<Player>, k: Option<int>)
    ensures OfRank(SeedOrder(players), k) == OfRank(players, k)
  {
    if players != [] {
      SeedOrderStable(players[1..], k);
      InsertOfRank(players[0], SeedOrder(players[1..]), k);
    }
  }

  /** Players with orders 3, none and 1 are seeded as: the order-1 player, the order-3 player, then the unordered one. */
  lemma SeedOrderExample()
    ensures var a := Player("a", "A", None, None, false, false, Bat, "t", Some(3));
            var b := a.(id := "b", battingOrder := None);
            var c := a.(id := "c", battingOrder := Some(1));
            SeedOrder([a, b, c]) == [c, a, b]
  {
    var a := Player("a", "A", None, None, false, false, Bat, "t", Some(3));
    var b := a.(id := "b", battingOrder := None);
    var c := a.(id := "c", battingOrder := Some(1));
    assert Compare(b, c) > 0 && Compare(a, c) > 0 && Compare(a, b) < 0;
    assert [c][1..] == [] && [c, b][1..] == [b];
    assert Insert(b, [c]) == [c, b];
    assert Insert(a, [b]) == [a, b];
    assert Insert(a, [c, b]) == [c, a, b];
    assert [a, b, c][1..] == [b, c] && [b, c][1..] == [c];
    assert SeedOrder([c]) == [c];
    assert SeedOrder([b, c]) == [c, b];
  }

  /** A player with this `_id` is in the list. */
  predicate Lists(items: seq<Player>, id: PlayerId) {
    exists i :: 0 <= i < |items| && items[i].id == id
  }

  /** `items.findIndex(item => item._id === id)` for an id that is listed: the first index holding it. */
  function FindIndex(items: seq<Player>, id: PlayerId): (i: nat)
    requires Lists(items, id)
    ensures i < |items| && items[i].id == id
    ensures forall j :: 0 <= j < i ==> items[j].id != id
  {
    if items[0].id == id then 0
    else
      assert Lists(items[1..], id) by {
        var j :| 0 <= j < |items| && items[j].id == id;
        assert items[1..][j - 1] == items[j];
      }
      1 + FindIndex(items[1..], id)
  }

  /** `s` without its element at `i`. */
  function RemoveAt<T>(s: seq<T>, i: nat): (r: seq<T>)
    requires i < |s|
    ensures |r| == |s| - 1
  {
    s[..i] + s[i + 1..]
  }

  /**
   * dnd-kit's `arrayMove(items, from, to)`: take the element at `from` out and put it back in
   * at `to`. The moved element lands at `to`, and removing it again gives back the list with
   * the element removed at `from`: every other element keeps its relative order.
   */
  function ArrayMove<T>(s: seq<T>, from: nat, to: nat): (r: seq<T>)
    requires from < |s| && to < |s|
    ensures |r| == |s|
    ensures r[to] == s[from]
    ensures RemoveAt(r, to) == RemoveAt(s, from)
    ensures multiset(r) == multiset(s)
  {
    var rest := RemoveAt(s, from);
    var r := rest[..to] + [s[from]] + rest[to..];
    assert RemoveAt(r, to) == rest by {
      assert r[..to] == rest[..to];
      assert r[to + 1..] == rest[to..];
      assert rest[..to] + rest[to..] == rest;
    }
    MoveKeepsElements(s, from, to);
    r
  }

  /** Taking an element out and putting it back elsewhere keeps the multiset of elements. */
  lemma MoveKeepsElements<T>(s: seq<T>, from: nat, to: nat)
    requires from < |s| && to < |s|
    ensures multiset(RemoveAt(s, from)[..to] + [s[from]] + RemoveAt(s, from)[to..]) == multiset(s)
  {
    var rest := RemoveAt(s, from);
    assert s == s[..from] + [s[from]] + s[from + 1..];
    assert rest[..to] + rest[to..] == rest;
    calc {
      multiset(rest[..to] + [s[from]] + rest[to..]);
      multiset(rest[..to]) + multiset{s[from]} + multiset(rest[to..]);
      multiset(rest) + multiset{s[from]};
      multiset(s[..from]) + multiset(s[from + 1..]) + multiset{s[from]};
      multiset(s);
    }
  }

  /** Where each element of `s` ends up after `ArrayMove(s, from, to)`, index by index. */
  lemma ArrayMoveAt<T>(s: seq<T>, from: nat, to: nat, i: nat)
    requires from < |s| && to < |s| && i < |s|
    ensures ArrayMove(s, from, to)[i] ==
              if i == to then s[from]
              else if from < to && from <= i < to then s[i + 1]
              else if to < from && to < i <= from then s[i - 1]
              else s[i]
  {
    var r := ArrayMove(s, from, to);
    if i != to {
      var rest := RemoveAt(s, from);
      var k := if i < to then i else i - 1;
      assert r[i] == RemoveAt(r, to)[k];
      assert rest[k] == if k < from then s[k] else s[k + 1];
    }
  }

  /** Moving an element onto its own position changes nothing. */
  lemma ArrayMoveSame<T>(s: seq<T>, i: nat)
    requires i < |s|
    ensures ArrayMove(s, i, i) == s
  {
    forall k | 0 <= k < |s| ensures ArrayMove(s, i, i)[k] == s[k] {
      ArrayMoveAt(s, i, i, k);
    }
  }

  /**
   * `handleDragEnd`: with no drop target, or a drop onto the dragged player itself, the list is
   * unchanged; otherwise the dragged player moves to the index the target had.
   */
  function DragEnd(items: seq<Player>, active: PlayerId, over: Option<PlayerId>): (r: seq<Player>)
    requires Lists(items, active) && (over.Some? ==> Lists(items, over.value))
    ensures |r| == |items| && multiset(r) == multiset(items)
    ensures over.None? || over.value == active ==> r == items
    ensures over.Some? && over.value != active ==>
              r[FindIndex(items, over.value)] == items[FindIndex(items, active)]
  {
    if over.Some? && active != over.value then
      ArrayMove(items, FindIndex(items, active), FindIndex(items, over.value))
    else items
  }

  /** How many players receive an order on save. */
  const OrderedSlots: nat := 11

  /** The `$set` body element that gives one player batting order `k` and nothing else. */
  function OrderPatch(k: int): (u: Patch)
    ensures u.battingOrder == Some(k)
    ensures forall f :: IsSupplied(u, f) <==> f == OrderField
  {
    Patch(None, None, None, None, None, None, None, Some(k))
  }

  /**
   * `orderedPlayers.slice(0, 11).map((player, index) => ({ _id, battingOrder: index + 1 }))`:
   * one update for each of the first `min(11, n)` players, naming that player and setting only
   * its batting order, to its 1-based position.
   */
  function SaveUpdates(ordered: seq<Player>): (us: seq<Update>)
    ensures |us| == if |ordered| <= OrderedSlots then |ordered| else OrderedSlots
    ensures forall i :: 0 <= i < |us| ==> us[i].id == ordered[i].id && us[i].patch == OrderPatch(i + 1)
  {
    var k := if |ordered| <= OrderedSlots then |ordered| else OrderedSlots;
    seq(k, i requires 0 <= i < k => Update(ordered[i].id, OrderPatch(i + 1)))
  }

  /** The batting orders a list of updates sets. */
  function SentOrders(us: seq<Update>): set<int> {
    set u | u in us && u.patch.battingOrder.Some? :: u.patch.battingOrder.value
  }

  /** The orders a save sends are exactly 1..k, each once, and all lie in the schema's [1, 11]. */
  lemma SaveOrdersDense(ordered: seq<Player>)
    ensures forall v :: v in SentOrders(SaveUpdates(ordered)) <==> 1 <= v <= |SaveUpdates(ordered)|
    ensures forall i, j :: 0 <= i < j < |SaveUpdates(ordered)| ==>
              SaveUpdates(ordered)[i].patch.battingOrder != SaveUpdates(ordered)[j].patch.battingOrder
    ensures forall v :: v in SentOrders(SaveUpdates(ordered)) ==> MinBattingOrder <= v <= MaxBattingOrder
  {
    var us := SaveUpdates(ordered);
    forall v | 1 <= v <= |us| ensures v in SentOrders(us) {
      assert us[v - 1] in us;
    }
    forall v | v in SentOrders(us) ensures 1 <= v <= |us| {
      var u :| u in us && u.patch.battingOrder.Some? && u.patch.battingOrder.value == v;
      var i :| 0 <= i < |us| && us[i] == u;
    }
  }

  /** A player that does not appear among the first 11 is not named by any update of the save. */
  lemma SaveSkipsTail(ordered: seq<Player>, id: PlayerId)
    requires forall i :: 0 <= i < |ordered| && i < OrderedSlots ==> ordered[i].id != id
    ensures NotNamed(SaveUpdates(ordered), id)
  {
  }

  /** With distinct ids, every player from position 12 on is left out of the save. */
  lemma SaveSkipsPastEleven(ordered: seq<Player>, i: nat)
    requires forall a, b :: 0 <= a < b < |ordered| ==> ordered[a].id != ordered[b].id
    requires OrderedSlots <= i < |ordered|
    ensures NotNamed(SaveUpdates(ordered), ordered[i].id)
  {
    SaveSkipsTail(ordered, ordered[i].id);
  }

  /**
   * The dialog's state: the `orderedPlayers` cell, replaced when the dialog opens and after
   * each drag, and read by the save button.
   */
  class BattingOrderManager {
    var orderedPlayers: seq<Player>

    /** `useState<Player[]>([])`. */
    constructor ()
      ensures orderedPlayers == []
    {
      orderedPlayers := [];
    }

    /**
     * The effect run when `open` or `players` change: it reseeds the list only when the
     * dialog is open and there are players, and leaves it alone otherwise.
     */
    method Reseed(open: bool, players: seq<Player>)
      modifies this
      ensures open && |players| > 0 ==> orderedPlayers == SeedOrder(players)
      ensures !(open && |players| > 0) ==> orderedPlayers == old(orderedPlayers)
    {
      if open && |players| > 0 {
        orderedPlayers := SeedOrder(players);
      }
    }

    /**
     * `handleDragEnd`. dnd-kit reports only ids of the sortable items, which are built from
     * this same list, so both ids are listed.
     */
    method HandleDragEnd(active: PlayerId, over: Option<PlayerId>)
      requires Lists(orderedPlayers, active) && (over.Some? ==> Lists(orderedPlayers, over.value))
      modifies this
      ensures orderedPlayers == DragEnd(old(orderedPlayers), active, over)
    {
      if over.Some? && active != over.value {
        var oldIndex := FindIndex(orderedPlayers, active);
        var newIndex := FindIndex(orderedPlayers, over.value);
        orderedPlayers := ArrayMove(orderedPlayers, oldIndex, newIndex);
      }
    }

    /**
     * `handleSave`: the body of the `PUT` request, or nothing when the list is empty (the
     * save button is disabled then).
     */
    method HandleSave() returns (body: Option<seq<Update>>)
      ensures body.None? <==> orderedPlayers == []
      ensures body.Some? ==> body.value == SaveUpdates(orderedPlayers)
    {
      if |orderedPlayers| == 0 {
        body := None;
      } else {
        body := Some(SaveUpdates(orderedPlayers));
      }
    }
  }
}

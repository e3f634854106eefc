/**
 * The bulk-entry dialog (components/BulkPlayerDialog.tsx): a list of editable rows, each with a
 * client-side numeric id, that is filtered, trimmed and sent as one array to `POST /api/players`.
 * The row operations are pure functions on the list; `BulkPlayerForm` holds the list as the
 * component's state and replaces it as the handlers do.
 */
module BulkEntry {
  import opened Wrappers
  import opened Text
  import opened PlayerModel
  import opened BatchUpdate
  import opened PlayerCreate

  /** One row of the form. `playingRole` is the raw select value. */
  datatype EntryRow = EntryRow(
    id: int,
    name: string,
    city: string,
    isCaptain: bool,
    isWicketKeeper: bool,
    playingRole: string)

  /** The row the form starts with and adds: empty name and city, no flags, role `'Bat'`. */
  function BlankRow(id: int): EntryRow {
    EntryRow(id, "", "", false, false, "Bat")
  }

  /** One `updateRow(id, field, value)` call: the field and its new value. */
  datatype Edit =
    | SetName(name: string)
    | SetCity(city: string)
    | SetCaptain(isCaptain: bool)
    | SetWicketKeeper(isWicketKeeper: bool)
    | SetRole(playingRole: string)

  /** `{ ...row, [field]: value }`: the edited field takes the value; the id and every other field stay. */
  function ApplyEdit(row: EntryRow, e: Edit): (r: EntryRow)
    ensures r.id == row.id
    ensures e.SetName? ==> r.name == e.name && r.(name := row.name) == row
    ensures e.SetCity? ==> r.city == e.city && r.(city := row.city) == row
    ensures e.SetCaptain? ==> r.isCaptain == e.isCaptain && r.(isCaptain := row.isCaptain) == row
    ensures e.SetWicketKeeper? ==> r.isWicketKeeper == e.isWicketKeeper && r.(isWicketKeeper := row.isWicketKeeper) == row
    ensures e.SetRole? ==> r.playingRole == e.playingRole && r.(playingRole := row.playingRole) == row
  {
    match e
    case SetName(v) => row.(name := v)
    case SetCity(v) => row.(city := v)
    case SetCaptain(v) => row.(isCaptain := v)
    case SetWicketKeeper(v) => row.(isWicketKeeper := v)
    case SetRole(v) => row.(playingRole := v)
  }

  /** No two rows share an id. */
  predicate UniqueIds(rows: seq<EntryRow>) {
    forall i, j :: 0 <= i < j < |rows| ==> rows[i].id != rows[j].id
  }

  /** No row has id `id`. */
  predicate IdUnused(rows: seq<EntryRow>, id: int) {
    forall i :: 0 <= i < |rows| ==> rows[i].id != id
  }

  /** `addNewRow`: a blank row with the new id appended at the end. */
  function WithRowAdded(rows: seq<EntryRow>, id: int): (r: seq<EntryRow>)
    ensures |r| == |rows| + 1 && r[..|rows|] == rows && r[|rows|] == BlankRow(id)
  {
    rows + [BlankRow(id)]
  }

  /** `filter((row) => row.id !== id)`: exactly the rows with another id, in their order. */
  function WithoutId(rows: seq<EntryRow>, id: int): (r: seq<EntryRow>)
    ensures |r| <= |rows|
    ensures forall x :: x in r <==> x in rows && x.id != id
  {
    if rows == [] then []
    else if rows[0].id == id then WithoutId(rows[1..], id)
    else [rows[0]] + WithoutId(rows[1..], id)
  }

  /** On one row the filter keeps the row exactly when its id differs. */
  lemma WithoutIdSingle(x: EntryRow, id: int)
    ensures WithoutId([x], id) == if x.id != id then [x] else []
  {
    assert [x][1..] == [];
  }

  /**
   * The filter distributes over concatenation. With `WithoutIdSingle` this fixes the result
   * completely: every row with another id, once, in its original order.
   */
  lemma {:induction false} WithoutIdAppend(a: seq<EntryRow>, b: seq<EntryRow>, id: int)
    ensures WithoutId(a + b, id) == WithoutId(a, id) + WithoutId(b, id)
    decreases |a|
  {
    if a == [] {
      assert a + b == b;
    } else {
      assert (a + b)[0] == a[0] && (a + b)[1..] == a[1..] + b;
      WithoutIdAppend(a[1..], b, id);
    }
  }

  /**
   * `removeRow`: the filter runs only when the list has more than one row; a single row is
   * never removed.
   */
  function WithRowRemoved(rows: seq<EntryRow>, id: int): (r: seq<EntryRow>)
    ensures |rows| <= 1 ==> r == rows
    ensures |rows| > 1 ==> forall x :: x in r <==> x in rows && x.id != id
    ensures |r| <= |rows|
  {
    if |rows| > 1 then WithoutId(rows, id) else rows
  }

  /** `updateRow`: every row with the given id gets the edit, the others stay as they are. */
  function WithRowUpdated(rows: seq<EntryRow>, id: int, e: Edit): (r: seq<EntryRow>)
    ensures |r| == |rows|
    ensures forall i :: 0 <= i < |r| ==> r[i].id == rows[i].id
    ensures forall i :: 0 <= i < |r| && rows[i].id != id ==> r[i] == rows[i]
    ensures forall i :: 0 <= i < |r| && rows[i].id == id ==> r[i] == ApplyEdit(rows[i], e)
  {
    seq(|rows|, i requires 0 <= i < |rows| => if rows[i].id == id then ApplyEdit(rows[i], e) else rows[i])
  }

  /** Dropping the first row keeps the ids distinct. */
  lemma UniqueTail(rows: seq<EntryRow>)
    requires rows != [] && UniqueIds(rows)
    ensures UniqueIds(rows[1..])
  {
    var t := rows[1..];
    forall i, j | 0 <= i < j < |t| ensures t[i].id != t[j].id {
      assert t[i] == rows[i + 1] && t[j] == rows[j + 1];
    }
  }

  /** Putting a row with a new id in front keeps the ids distinct. */
  lemma UniqueCons(x: EntryRow, w: seq<EntryRow>)
    requires UniqueIds(w) && forall y :: y in w ==> y.id != x.id
    ensures UniqueIds([x] + w)
  {
    var r := [x] + w;
    forall i, j | 0 <= i < j < |r| ensures r[i].id != r[j].id {
      assert r[j] == w[j - 1];
      if i > 0 {
        assert r[i] == w[i - 1];
      }
    }
  }

  /** Filtering a list with distinct ids keeps its ids distinct. */
  lemma {:induction false} WithoutIdKeepsUnique(rows: seq<EntryRow>, id: int)
    requires UniqueIds(rows)
    ensures UniqueIds(WithoutId(rows, id))
    decreases |rows|
  {
    if rows != [] {
      var t := rows[1..];
      UniqueTail(rows);
      WithoutIdKeepsUnique(t, id);
      if rows[0].id != id {
        var w := WithoutId(t, id);
        forall y | y in w ensures y.id != rows[0].id {
          var k :| 0 <= k < |t| && t[k] == y;
          assert t[k] == rows[k + 1];
        }
        UniqueCons(rows[0], w);
      }
    }
  }

  /** With distinct ids the filter drops at most one row. */
  lemma {:induction false} WithoutIdDropsAtMostOne(rows: seq<EntryRow>, id: int)
    requires UniqueIds(rows)
    ensures |WithoutId(rows, id)| + 1 >= |rows|
    decreases |rows|
  {
    if rows != [] {
      var t := rows[1..];
      if rows[0].id == id {
        assert IdUnused(t, id) by {
          forall k | 0 <= k < |t| ensures t[k].id != id {
            assert t[k] == rows[k + 1];
          }
        }
        UnusedIdFilterKeepsAll(t, id);
      } else {
        UniqueTail(rows);
        WithoutIdDropsAtMostOne(t, id);
      }
    }
  }

  /** Filtering out an id no row has leaves the list as it is. */
  lemma {:induction false} UnusedIdFilterKeepsAll(rows: seq<EntryRow>, id: int)
    requires IdUnused(rows, id)
    ensures WithoutId(rows, id) == rows
    decreases |rows|
  {
    if rows != [] {
      var t := rows[1..];
      assert IdUnused(t, id) by {
        forall k | 0 <= k < |t| ensures t[k].id != id {
          assert t[k] == rows[k + 1];
        }
      }
      UnusedIdFilterKeepsAll(t, id);
      assert rows == [rows[0]] + t;
    }
  }

  /**
   * The `playerRows.length > 1` guard keeps the form from losing its last row as long as the
   * ids are distinct, and the remaining ids stay distinct.
   */
  lemma RemoveKeepsARow(rows: seq<EntryRow>, id: int)
    requires |rows| >= 1 && UniqueIds(rows)
    ensures |WithRowRemoved(rows, id)| >= 1 && UniqueIds(WithRowRemoved(rows, id))
  {
    if |rows| > 1 {
      WithoutIdDropsAtMostOne(rows, id);
      WithoutIdKeepsUnique(rows, id);
    }
  }

  /** The guard counts rows, not ids: two rows sharing an id are removed together, leaving none. */
  lemma RemoveWithSharedIdEmpties()
    ensures WithRowRemoved([BlankRow(7), BlankRow(7)], 7) == []
  {
  }

  /** `filter((row) => row.name.trim() !== '')`: the rows with a non-blank name, in their order. */
  function NamedRows(rows: seq<EntryRow>): (r: seq<EntryRow>)
    ensures |r| <= |rows|
    ensures forall x :: x in r <==> x in rows && Trim(x.name) != ""
  {
    if rows == [] then []
    else if Trim(rows[0].name) == "" then NamedRows(rows[1..])
    else [rows[0]] + NamedRows(rows[1..])
  }

  /** On one row the filter keeps the row exactly when its name is not blank. */
  lemma NamedRowsSingle(x: EntryRow)
    ensures NamedRows([x]) == if Trim(x.name) != "" then [x] else []
  {
    assert [x][1..] == [];
  }

  /**
   * The filter distributes over concatenation. With `NamedRowsSingle` this fixes the result
   * completely: every named row, once, in the order of the form.
   */
  lemma {:induction false} NamedRowsAppend(a: seq<EntryRow>, b: seq<EntryRow>)
    ensures NamedRows(a + b) == NamedRows(a) + NamedRows(b)
    decreases |a|
  {
    if a == [] {
      assert a + b == b;
    } else {
      assert (a + b)[0] == a[0] && (a + b)[1..] == a[1..] + b;
      NamedRowsAppend(a[1..], b);
    }
  }

  /** The element sent for one row: trimmed name and city, the flags, the raw role, the dialog's team; no order, no image. */
  function RowPayload(row: EntryRow, teamId: TeamId): (p: PlayerInput)
    ensures HasRequired(p) <==> Trim(row.name) != "" && teamId != "" && row.playingRole != ""
    ensures p.imageUrl.None? && p.battingOrder.None?
  {
    PlayerInput(
      Some(Trim(row.name)),
      None,
      Some(Trim(row.city)),
      Some(row.isCaptain),
      Some(row.isWicketKeeper),
      Some(row.playingRole),
      Some(teamId),
      None)
  }

  /** `validRows.map(...)`: the request body, one element per named row. */
  function Payload(rows: seq<EntryRow>, teamId: TeamId): (ps: seq<PlayerInput>)
    ensures |ps| == |NamedRows(rows)|
    ensures forall i :: 0 <= i < |ps| ==> ps[i] == RowPayload(NamedRows(rows)[i], teamId)
  {
    var named := NamedRows(rows);
    seq(|named|, i requires 0 <= i < |named| => RowPayload(named[i], teamId))
  }

  /** The payload of one row: that row's element when its name is not blank, nothing otherwise. */
  lemma PayloadSingle(x: EntryRow, teamId: TeamId)
    ensures Payload([x], teamId) == if Trim(x.name) != "" then [RowPayload(x, teamId)] else []
  {
    NamedRowsSingle(x);
  }

  /** The payload of two runs of rows is the payload of the first followed by that of the second. */
  lemma PayloadAppend(a: seq<EntryRow>, b: seq<EntryRow>, teamId: TeamId)
    ensures Payload(a + b, teamId) == Payload(a, teamId) + Payload(b, teamId)
  {
    NamedRowsAppend(a, b);
    var p, pa, pb := Payload(a + b, teamId), Payload(a, teamId), Payload(b, teamId);
    var na := NamedRows(a);
    forall i | 0 <= i < |p| ensures p[i] == (pa + pb)[i] {
      if i >= |pa| {
        assert NamedRows(a + b)[i] == NamedRows(b)[i - |na|];
      }
    }
  }

  /**
   * Element `i` of the payload comes from the `i`-th row with a non-blank name: its name is
   * that row's name trimmed, hence non-empty; its city is trimmed; its role is the row's; the
   * team is the dialog's; and there is no batting order and no image.
   */
  lemma PayloadShape(rows: seq<EntryRow>, teamId: TeamId, i: nat)
    requires i < |Payload(rows, teamId)|
    ensures var row, p := NamedRows(rows)[i], Payload(rows, teamId)[i];
            && row in rows
            && p.name == Some(Trim(row.name)) && p.name.value != "" && Trimmed(p.name.value)
            && p.city == Some(Trim(row.city)) && Trimmed(p.city.value)
            && p.playingRole == Some(row.playingRole)
            && p.teamId == Some(teamId) && p.battingOrder.None? && p.imageUrl.None?
  {
    assert NamedRows(rows)[i] in NamedRows(rows);
  }

  /** The element sent for one row passes the schema exactly when the row is named, the team is set and the role is an enum member. */
  lemma RowPayloadPassesSchema(row: EntryRow, teamId: TeamId)
    ensures SchemaErrors(RowPayload(row, teamId)) == {} <==>
              Trim(row.name) != "" && teamId != "" && ParseRole(row.playingRole).Some?
  {
    TrimKeepsNonBlank(row.name);
    NoSchemaErrors(RowPayload(row, teamId));
  }

  /**
   * Every element the dialog sends has a non-empty name, so the route's required-field check
   * passes as soon as the team id and every row's role are non-empty.
   */
  lemma PayloadHasRequired(rows: seq<EntryRow>, teamId: TeamId)
    requires teamId != ""
    requires forall i :: 0 <= i < |rows| ==> rows[i].playingRole != ""
    ensures forall i :: 0 <= i < |Payload(rows, teamId)| ==> HasRequired(Payload(rows, teamId)[i])
  {
    forall i | 0 <= i < |Payload(rows, teamId)| ensures HasRequired(Payload(rows, teamId)[i]) {
      PayloadShape(rows, teamId, i);
    }
  }

  /** With a non-empty team id and roles from the enum, the schema accepts every element the dialog sends. */
  lemma PayloadPassesSchema(rows: seq<EntryRow>, teamId: TeamId)
    requires teamId != ""
    requires forall i :: 0 <= i < |rows| ==> ParseRole(rows[i].playingRole).Some?
    ensures forall i :: 0 <= i < |Payload(rows, teamId)| ==> SchemaErrors(Payload(rows, teamId)[i]) == {}
  {
    var named := NamedRows(rows);
    forall i | 0 <= i < |Payload(rows, teamId)| ensures SchemaErrors(Payload(rows, teamId)[i]) == {} {
      var row := named[i];
      assert row in named;
      var k :| 0 <= k < |rows| && rows[k] == row;
      RowPayloadPassesSchema(row, teamId);
    }
  }

  /**
   * A submission from roles the select offers and a real team is created in full: the
   * bulk branch replies 201 with one fresh id per named row.
   */
  lemma SubmissionCreatesAll(m: Store, rows: seq<EntryRow>, teamId: TeamId, ids: seq<PlayerId>)
    requires teamId != ""
    requires forall i :: 0 <= i < |rows| ==> ParseRole(rows[i].playingRole).Some?
    requires |ids| == |Payload(rows, teamId)|
    ensures CreateMany(m, Payload(rows, teamId), ids).1 == Created(ids)
  {
    var ps := Payload(rows, teamId);
    forall i | 0 <= i < |rows| ensures rows[i].playingRole != "" {
      assert ParseRole(rows[i].playingRole).Some?;
    }
    PayloadHasRequired(rows, teamId);
    PayloadPassesSchema(rows, teamId);
    BulkCreatedWhenAllValid(m, ps, ids);
  }

  /** The dialog's row list. Before any submission it always holds at least one row, all ids distinct. */
  class BulkPlayerForm {
    var playerRows: seq<EntryRow>

    ghost predicate Valid()
      reads this
    {
      |playerRows| >= 1 && UniqueIds(playerRows)
    }

    /** The initial state: one blank row with id 1. */
    constructor ()
      ensures Valid() && playerRows == [BlankRow(1)]
    {
      playerRows := [BlankRow(1)];
    }

    /** `addNewRow`, with `now` the `Date.now()` value used as the new id. */
    method AddNewRow(now: int)
      requires Valid() && IdUnused(playerRows, now)
      modifies this
      ensures Valid() && playerRows == WithRowAdded(old(playerRows), now)
    {
      playerRows := WithRowAdded(playerRows, now);
    }

    /** `removeRow(id)`. */
    method RemoveRow(id: int)
      requires Valid()
      modifies this
      ensures Valid() && playerRows == WithRowRemoved(old(playerRows), id)
    {
      RemoveKeepsARow(playerRows, id);
      if |playerRows| > 1 {
        playerRows := WithoutId(playerRows, id);
      }
    }

    /** `updateRow(id, field, value)`. */
    method UpdateRow(id: int, e: Edit)
      requires Valid()
      modifies this
      ensures Valid() && playerRows == WithRowUpdated(old(playerRows), id, e)
    {
      playerRows := WithRowUpdated(playerRows, id, e);
    }

    /**
     * `handleSubmit`: with no named row nothing is sent (`None`, the alert); otherwise the
     * payload is sent and, when the server reports success (`accepted`), the form goes back to
     * its single blank row; on failure the rows stay for correction.
     */
    method HandleSubmit(teamId: TeamId, accepted: bool) returns (sent: Option<seq<PlayerInput>>)
      requires Valid()
      modifies this
      ensures sent.None? <==> NamedRows(old(playerRows)) == []
      ensures sent.Some? ==> sent.value == Payload(old(playerRows), teamId) && |sent.value| >= 1
      ensures playerRows == if sent.Some? && accepted then [BlankRow(1)] else old(playerRows)
      ensures Valid()
    {
      var validRows := NamedRows(playerRows);
      if |validRows| == 0 {
        return None;
      }
      sent := Some(Payload(playerRows, teamId));
      if accepted {
        playerRows := [BlankRow(1)];
      }
    }
  }
}

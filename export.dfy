/**
 * `POST /api/export/all` (app/api/export/all/route.ts): one worksheet per team, one row per
 * player. The row mapping and the sheet name are pure; the workbook is built by a loop that
 * appends one sheet per team.
 */
module ExportAll {
  import opened Wrappers
  import opened Text
  import opened PlayerModel

  /** A cell: a string, or the number a `battingOrder` holds. */
  datatype Cell = StringCell(s: string) | NumberCell(n: int)

  /** One spreadsheet row, its columns in the route's order. */
  datatype Row = Row(
    playerName: string,
    city: string,
    playingRole: string,
    captain: string,
    wicketKeeper: string,
    battingOrder: Cell)

  /** `flag ? 'Yes' : 'No'`. */
  function YesNo(flag: bool): string {
    if flag then "Yes" else "No"
  }

  /** Reading a Yes/No column back: only `'Yes'` means true. */
  function ReadYesNo(s: string): bool {
    s == "Yes"
  }

  /**
   * The row for one player: name and role copied verbatim, `city || ''`, Yes/No for the two
   * flags, and `battingOrder || ''` (an absent order and the order 0 both give `''`).
   */
  function ExportRow(p: Player): (r: Row)
    ensures r.playerName == p.name && r.playingRole == RoleName(p.playingRole)
    ensures ReadYesNo(r.captain) == p.isCaptain && (r.captain == "Yes" || r.captain == "No")
    ensures ReadYesNo(r.wicketKeeper) == p.isWicketKeeper && (r.wicketKeeper == "Yes" || r.wicketKeeper == "No")
    ensures r.city == "" <==> p.city.None? || p.city.value == ""
    ensures p.city.Some? ==> r.city == p.city.value
    ensures r.battingOrder == StringCell("") <==> p.battingOrder.None? || p.battingOrder.value == 0
    ensures r.battingOrder != StringCell("") ==> r.battingOrder == NumberCell(p.battingOrder.value)
  {
    Row(
      p.name,
      if p.city.Some? then p.city.value else "",
      RoleName(p.playingRole),
      YesNo(p.isCaptain),
      YesNo(p.isWicketKeeper),
      if p.battingOrder.Some? && p.battingOrder.value != 0 then NumberCell(p.battingOrder.value) else StringCell(""))
  }

  /** For a schema-valid player the order column gives back exactly the stored order. */
  lemma ExportOrderRoundTrip(p: Player)
    requires ValidPlayer(p)
    ensures ExportRow(p).battingOrder == (if p.battingOrder.Some? then NumberCell(p.battingOrder.value) else StringCell(""))
  {
  }

  /** `players.map(...)`: exactly one row per player, in the players' order. */
  function ExportRows(players: seq<Player>): (rows: seq<Row>)
    ensures |rows| == |players|
    ensures forall i :: 0 <= i < |rows| ==> rows[i] == ExportRow(players[i])
  {
    seq(|players|, i requires 0 <= i < |players| => ExportRow(players[i]))
  }

  /** The longest sheet name a workbook accepts. */
  const SheetNameLimit: nat := 31

  /** `team.name.substring(0, 31)`: the first `min(31, |name|)` characters of the team name. */
  function SheetName(teamName: string): (s: string)
    ensures |s| <= SheetNameLimit
    ensures StartsWith(teamName, s)
    ensures |teamName| <= SheetNameLimit ==> s == teamName
    ensures |teamName| > SheetNameLimit ==> |s| == SheetNameLimit
  {
    Prefix(teamName, SheetNameLimit)
  }

  /**
   * Truncation is not injective: two distinct team names that agree on their first 31
   * characters get the same sheet name.
   */
  lemma SheetNamesCollide(a: string, b: string)
    requires |a| >= SheetNameLimit && |b| >= SheetNameLimit && a[..SheetNameLimit] == b[..SheetNameLimit]
    ensures SheetName(a) == SheetName(b)
  {
  }

  /** One team as the route reads it: its name and its players in the order the query returned them. */
  datatype TeamExport = TeamExport(name: string, players: seq<Player>)

  /** One worksheet: its name and its rows. */
  datatype Sheet = Sheet(name: string, rows: seq<Row>)

  /**
   * The sheet the route appends for one team: named by the first `min(31, |name|)` characters
   * of the team name, and holding player `i`'s row at position `i`.
   */
  function TeamSheet(t: TeamExport): (sh: Sheet)
    ensures StartsWith(t.name, sh.name)
    ensures |sh.name| == if |t.name| <= SheetNameLimit then |t.name| else SheetNameLimit
    ensures |sh.rows| == |t.players|
    ensures forall i :: 0 <= i < |t.players| ==> sh.rows[i] == ExportRow(t.players[i])
  {
    Sheet(SheetName(t.name), ExportRows(t.players))
  }

  /**
   * The `for (const team of teams)` loop: the workbook gets one sheet per team, in the teams'
   * order, each named after its team and holding one row per player.
   */
  method BuildWorkbook(teams: seq<TeamExport>) returns (wb: seq<Sheet>)
    ensures |wb| == |teams|
    ensures forall i :: 0 <= i < |teams| ==> wb[i] == TeamSheet(teams[i])
  {
    wb := [];
    var i := 0;
    while i < |teams|
      invariant 0 <= i <= |teams|
      invariant |wb| == i
      invariant forall k :: 0 <= k < i ==> wb[k] == TeamSheet(teams[k])
    {
      var rows := ExportRows(teams[i].players);
      var name := SheetName(teams[i].name);
      wb := wb + [Sheet(name, rows)];
      i := i + 1;
    }
  }

  /** The example row: a captain with city X, role Bat and order 1 exports as A, X, Bat, Yes, No, 1. */
  lemma ExportExample()
    ensures ExportRow(Player("p", "A", None, Some("X"), true, false, Bat, "t", Some(1)))
            == Row("A", "X", "Bat", "Yes", "No", NumberCell(1))
  {
  }
}

/**
 * The Player document and its schema (models/Player.ts): field types, the `playingRole`
 * enum, the `battingOrder` range, the `trim` setters, the defaults, and what a create
 * request's fields become once the schema has cast, defaulted and validated them.
 * The document store keys players by id; `id` stands for Mongo's `_id`.
 */
module PlayerModel {
  import opened Wrappers
  import opened Text

  type PlayerId = string
  type TeamId = string

  /** The `playingRole` enum. */
  datatype Role = Bat | Bowl | AllRounder

  const MinBattingOrder: int := 1
  const MaxBattingOrder: int := 11

  /** A stored player document (timestamps are not modelled). */
  datatype Player = Player(
    id: PlayerId,
    name: string,
    imageUrl: Option<string>,
    city: Option<string>,
    isCaptain: bool,
    isWicketKeeper: bool,
    playingRole: Role,
    teamId: TeamId,
    battingOrder: Option<int>)

  /** The string the enum stores for each role. */
  function RoleName(r: Role): (s: string)
    ensures ParseRole(s) == Some(r)
  {
    match r
    case Bat => "Bat"
    case Bowl => "Bowl"
    case AllRounder => "A.R"
  }

  /** The enum validator: exactly the three strings `'Bat'`, `'Bowl'` and `'A.R'` are roles. */
  function ParseRole(s: string): (r: Option<Role>)
    ensures r.Some? <==> (s == "Bat" || s == "Bowl" || s == "A.R")
  {
    if s == "Bat" then Some(Bat)
    else if s == "Bowl" then Some(Bowl)
    else if s == "A.R" then Some(AllRounder)
    else None
  }

  /** Parsing a role string and printing it back gives the same string. */
  lemma ParseRoleRoundTrip(s: string)
    requires ParseRole(s).Some?
    ensures RoleName(ParseRole(s).value) == s
  {
  }

  /**
   * What the schema guarantees of a document it has accepted: a required, trimmed, non-empty
   * name; a trimmed city when present; a team reference; a batting order in [1, 11] when present.
   * The role is an enum member by construction of `Role`.
   */
  predicate ValidPlayer(p: Player) {
    && p.name != "" && Trimmed(p.name)
    && (p.city.Some? ==> Trimmed(p.city.value))
    && p.teamId != ""
    && (p.battingOrder.Some? ==> MinBattingOrder <= p.battingOrder.value <= MaxBattingOrder)
  }

  /**
   * A create request's fields as they arrive in the JSON body: any of them may be absent.
   * `playingRole` is the raw string, checked against the enum by the schema.
   */
  datatype PlayerInput = PlayerInput(
    name: Option<string>,
    imageUrl: Option<string>,
    city: Option<string>,
    isCaptain: Option<bool>,
    isWicketKeeper: Option<bool>,
    playingRole: Option<string>,
    teamId: Option<TeamId>,
    battingOrder: Option<int>)

  /** The schema paths that can fail validation. */
  datatype SchemaPath = NamePath | RolePath | TeamPath | OrderPath

  /**
   * The paths whose validators reject `input`. The `trim` setter runs before `required`, so a
   * name of blanks is missing; an empty or unknown role fails `required`/`enum`; an order
   * outside [1, 11] fails `min`/`max`.
   */
  function SchemaErrors(input: PlayerInput): (errs: set<SchemaPath>)
    ensures NamePath in errs <==> input.name.None? || AllTrimmable(input.name.value)
    ensures RolePath in errs <==> input.playingRole.None? || ParseRole(input.playingRole.value).None?
    ensures TeamPath in errs <==> input.teamId.None? || input.teamId.value == ""
    ensures OrderPath in errs <==>
              input.battingOrder.Some? && !(MinBattingOrder <= input.battingOrder.value <= MaxBattingOrder)
  {
    (if input.name.None? || Trim(input.name.value) == "" then {NamePath} else {})
    + (if input.playingRole.None? || ParseRole(input.playingRole.value).None? then {RolePath} else {})
    + (if input.teamId.None? || input.teamId.value == "" then {TeamPath} else {})
    + (if input.battingOrder.Some? && !(MinBattingOrder <= input.battingOrder.value <= MaxBattingOrder)
       then {OrderPath} else {})
  }

  /** An input passes the schema exactly when none of the four paths fails. */
  lemma NoSchemaErrors(input: PlayerInput)
    ensures SchemaErrors(input) == {} <==>
              && input.name.Some? && !AllTrimmable(input.name.value)
              && input.playingRole.Some? && ParseRole(input.playingRole.value).Some?
              && input.teamId.Some? && input.teamId.value != ""
              && (input.battingOrder.Some? ==> MinBattingOrder <= input.battingOrder.value <= MaxBattingOrder)
  {
    var errs := SchemaErrors(input);
    if NamePath !in errs && RolePath !in errs && TeamPath !in errs && OrderPath !in errs {
      assert forall q: SchemaPath :: q !in errs;
    }
  }

  /** The outcome of building a document from a request: stored, or a validation error naming the failing paths. */
  datatype Cast = Stored(player: Player) | Invalid(errors: set<SchemaPath>)

  /**
   * `new Player(input)` followed by validation, with `id` the fresh `_id`: strings trimmed,
   * `isCaptain`/`isWicketKeeper` defaulted to false, `imageUrl` defaulted to null, and every
   * failing path reported.
   */
  function ApplySchema(input: PlayerInput, id: PlayerId): (r: Cast)
    ensures r.Stored? <==> SchemaErrors(input) == {}
    ensures r.Invalid? ==> r.errors == SchemaErrors(input) && r.errors != {}
    ensures r.Stored? ==> ValidPlayer(r.player) && r.player.id == id
  {
    if SchemaErrors(input) != {} then Invalid(SchemaErrors(input))
    else
      TrimIdempotent(input.name.value);
      ParseRoleRoundTrip(input.playingRole.value);
      Stored(Player(
        id,
        Trim(input.name.value),
        input.imageUrl,
        if input.city.Some? then Some(Trim(input.city.value)) else None,
        input.isCaptain == Some(true),
        input.isWicketKeeper == Some(true),
        ParseRole(input.playingRole.value).value,
        input.teamId.value,
        input.battingOrder))
  }

  /**
   * What the stored document holds: the name and city trimmed, the role as given, the team
   * and batting order as given, `isCaptain`/`isWicketKeeper` false unless given as true, and
   * `imageUrl` absent unless given.
   */
  lemma ApplySchemaFields(input: PlayerInput, id: PlayerId)
    requires ApplySchema(input, id).Stored?
    ensures var p := ApplySchema(input, id).player;
            && p.name == Trim(input.name.value)
            && p.teamId == input.teamId.value
            && RoleName(p.playingRole) == input.playingRole.value
            && p.battingOrder == input.battingOrder
            && p.isCaptain == (input.isCaptain == Some(true))
            && p.isWicketKeeper == (input.isWicketKeeper == Some(true))
            && p.imageUrl == input.imageUrl
            && p.city == (if input.city.Some? then Some(Trim(input.city.value)) else None)
  {
    ParseRoleRoundTrip(input.playingRole.value);
  }

  /** A stored document as the fields of a create request: what re-saving it would submit. */
  function AsInput(p: Player): PlayerInput {
    PlayerInput(Some(p.name), p.imageUrl, p.city, Some(p.isCaptain), Some(p.isWicketKeeper),
                Some(RoleName(p.playingRole)), Some(p.teamId), p.battingOrder)
  }

  /**
   * `ValidPlayer` is exactly what the schema keeps: a player satisfies it if and only if
   * submitting its own fields through the schema stores that very player again.
   */
  lemma ValidPlayerIsSchemaFixpoint(p: Player)
    ensures ValidPlayer(p) <==> ApplySchema(AsInput(p), p.id) == Stored(p)
  {
    if ValidPlayer(p) {
      ValidPlayerPassesSchema(p);
      ApplySchemaFields(AsInput(p), p.id);
      TrimFixpoint(p.name);
      if p.city.Some? {
        TrimFixpoint(p.city.value);
      }
    }
  }

  /** A valid player's own fields pass every validator. */
  lemma ValidPlayerPassesSchema(p: Player)
    requires ValidPlayer(p)
    ensures SchemaErrors(AsInput(p)) == {}
  {
    assert !IsTrimmable(p.name[0]);
    NoSchemaErrors(AsInput(p));
  }

  /**
   * The `(teamId, battingOrder)` index is not unique and no validator looks at other documents:
   * two valid players of one team may share a batting order and both be captain.
   */
  lemma SchemaAllowsSharedOrderAndCaptaincy()
    ensures exists a: Player, b: Player ::
              && ValidPlayer(a) && ValidPlayer(b) && a.id != b.id
              && a.teamId == b.teamId && a.battingOrder == b.battingOrder == Some(1)
              && a.isCaptain && b.isCaptain
  {
    var a := Player("p1", "A", None, None, true, false, Bat, "t", Some(1));
    var b := a.(id := "p2", name := "B");
    assert Trimmed(a.name) && Trimmed(b.name);
    assert ValidPlayer(a) && ValidPlayer(b);
  }
}

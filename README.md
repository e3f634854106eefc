# Cricket roster: batting order, player creation and export, in Dafny

This project models the logic core of a small roster-management web application (teams of
cricket players, a batting-order dialog, bulk player entry, a spreadsheet export and an image
upload guard) and proves properties of that model. The application is a Next.js front end
over a MongoDB collection of `Player` documents. The model covers:

- **The player schema** (`PlayerModel`, models/Player.ts): the `playingRole` enum, the
  `battingOrder` range [1, 11], the `trim` setters, the defaults, and the set of failing
  paths for a create request.
- **Batch update** (`BatchUpdate`, app/api/players/batch/route.ts): one `updateOne` with
  `$set` per body element, all applied in order by `bulkWrite`. The store is a map from
  `_id` to document.
- **The batting-order dialog** (`BattingOrder`, components/BattingOrderManager.tsx):
  - the seed order, a stable sort whose comparator treats an order of 0 as "no order", as
    JavaScript truthiness does;
  - the drag step (`findIndex` and `arrayMove`);
  - the update list the save button sends, which covers only the first 11 players.

  The dialog's state is the class `BattingOrderManager`.
- **What a save does to the store** (`SaveFlow`): the dialog's update list fed to the batch
  route.
- **Player creation** (`PlayerCreate`, app/api/players/route.ts):
  - the bulk branch: a required-field check, then `insertMany`, which inserts everything or
    nothing;
  - the single branch: a required-field check, then the team's captain flags are cleared,
    then the document is created and validated.
- **The stateful routes** (`Roster`): the two write routes, performed on a `RosterStore`
  object whose `players` map they replace.
- **The export** (`ExportAll`, app/api/export/all/route.ts): one row per player, one
  worksheet per team, sheet names truncated to 31 characters.
- **The bulk-entry dialog** (`BulkEntry`, components/BulkPlayerDialog.tsx): the row
  operations, the filter and trim of the submitted rows, and the form state as the class
  `BulkPlayerForm`.
- **The upload guard** (`Upload`, app/api/upload/route.ts): presence, type and size checks
  in that order.
- **String helpers** (`Text`): ECMAScript `trim`, `startsWith` and `substring(0, n)`.

Each request is one sequential step on the store. The database, the HTTP layer and the
browser are not modelled. What they supply becomes a parameter:
- the fresh `_id`s;
- the `Date.now()` row id;
- whether the server accepted a submission;
- the players a query returned.

Behaviours of the code that the model states outright, including some a user of the
application might not expect:
- Saving a batting order reports no error for duplicate ids, for ids of another team or for
  unknown ids. An unknown id is skipped (`BatchUpdate.UnknownIdsIgnored`).
- A player past position 11 is never sent (the dialog warns of this itself, at
  components/BattingOrderManager.tsx:190), so the save never clears a stale order. Two
  players can then share an order (`SaveFlow.StaleOrderCollides`).
- No validator makes batting orders or captaincy unique in a team
  (`PlayerModel.SchemaAllowsSharedOrderAndCaptaincy`).
- Bulk creation clears no captain at all, so one batch can store two captains of one team
  (`PlayerCreate.BulkMayCreateTwoCaptains`).
- Single creation clears the team's captains before the schema validates the new document.
  A document the schema then rejects leaves the team with no captain
  (`PlayerCreate.FailedCaptainCreateKeepsClearing`).
- The role strings are `Bat`, `Bowl` and `A.R`.
- The export's file name is fixed; only the sheet names are derived from team names, by
  truncation.

## Model

| member | source | states |
|---|---|---|
| Text.Trim | components/BulkPlayerDialog.tsx:78-79 | the result has no trimmable character at either end; it is empty exactly when every character of the input is trimmable |
| Text.TrimIsInfix | components/BulkPlayerDialog.tsx:78-79 | the result is the contiguous piece of the input that follows its leading white space: the input is white space up to that point, the rest starts with the result, and only white space follows it |
| Text.TrimFixpoint | models/Player.ts:22 | a string is its own trim exactly when neither end is white space |
| Text.TrimKeepsNonBlank | components/BulkPlayerDialog.tsx:66 | the trimmed string is all white space exactly when the input is, so trimming never turns a named row blank or a blank one named |
| Text.TrimEmptyIffAllTrimmable | components/BulkPlayerDialog.tsx:66 | removing leading then trailing white space leaves nothing exactly when the string is all white space, the test the row filter makes |
| Text.TrimIdempotent | models/Player.ts:19-23 | trimming twice is trimming once, so the schema's `trim` setter leaves a name the dialog already trimmed as it is |
| Text.TrimOfTrimmed | models/Player.ts:28-31 | a string with no trimmable character at either end is left unchanged by `trim` |
| Text.Prefix | app/api/export/all/route.ts:43 | `substring(0, n)` gives the first `min(n, length)` characters and is a prefix of the string |
| PlayerModel.RoleName | models/Player.ts:40-44 | every role's stored string is accepted by the enum and parses back to that role |
| PlayerModel.ParseRole | models/Player.ts:40-44 | a string is a role exactly when it is `Bat`, `Bowl` or `A.R` |
| PlayerModel.ParseRoleRoundTrip | models/Player.ts:42 | a string the enum accepts is the stored string of the role it parses to |
| PlayerModel.SchemaErrors | models/Player.ts:17-55 | the name fails when absent or all white space (the setter trims before `required`); the role fails when absent or not in the enum; the team fails when absent; the order fails when present and outside [1, 11] |
| PlayerModel.NoSchemaErrors | models/Player.ts:17-55 | an input passes the schema exactly when its name has a non-blank character, its role is in the enum, its team is present and its order is absent or in [1, 11] |
| PlayerModel.ApplySchema | models/Player.ts:17-59 | a document is stored exactly when no path fails, under the given `_id` and valid (trimmed non-empty name, trimmed city, team, order in range); otherwise the error names exactly the failing paths |
| PlayerModel.ApplySchemaFields | models/Player.ts:19-54 | the stored document holds the trimmed name and city, the given role, team, order and image, and `false` for each flag not given as `true` |
| PlayerModel.ValidPlayerPassesSchema | models/Player.ts:17-55 | the fields of a valid document pass every validator of the schema |
| PlayerModel.ValidPlayerIsSchemaFixpoint | models/Player.ts:17-55 | a document is valid exactly when submitting its own fields through the schema (setters, defaults, validators) stores that same document again |
| PlayerModel.SchemaAllowsSharedOrderAndCaptaincy | models/Player.ts:62 | the `(teamId, battingOrder)` index is not unique and nothing checks other documents: two valid players of a team may both be captain with the same order |
| BatchUpdate.BatchReplyFor | app/api/players/batch/route.ts:12-17 | the route answers 400 exactly when the body is not an array |
| BatchUpdate.NoChangeIsIdentity | app/api/players/batch/route.ts:23 | two versions of a document with the same `_id` that differ on no settable field are equal |
| BatchUpdate.SetFields | app/api/players/batch/route.ts:23 | `$set` keeps the `_id` and gives every supplied field its supplied value, with name and city passed through the schema's `trim` setter |
| BatchUpdate.SetBlankNameStoresEmpty | app/api/players/batch/route.ts:23 | no validator runs on `$set`: a name of white space only is stored as the empty string, leaving a document the schema would reject |
| BatchUpdate.SetFieldsKeepsUnsupplied | app/api/players/batch/route.ts:23 | `$set` leaves every field that the element does not supply unchanged |
| BatchUpdate.ApplyOne | app/api/players/batch/route.ts:20-25 | one `updateOne`: the document the filter matches becomes what `$set` makes of it, every other document is untouched, and a filter matching nothing changes nothing |
| BatchUpdate.ApplyUpdates | app/api/players/batch/route.ts:20-27 | the bulk write adds and removes no document and keeps every document under its own `_id` |
| BatchUpdate.ApplyUpdatesAppend | app/api/players/batch/route.ts:27 | applying two lists of operations one after the other is applying their concatenation |
| BatchUpdate.UnnamedPlayerUnchanged | app/api/players/batch/route.ts:20-27 | a player that no element names is left exactly as stored |
| BatchUpdate.UnsuppliedFieldUnchanged | app/api/players/batch/route.ts:20-27 | on a named player, a field that none of its elements supplies keeps its value |
| BatchUpdate.KnownUpdates | app/api/players/batch/route.ts:22 | every element it keeps names a stored player, and it keeps no more elements than the body has |
| BatchUpdate.KnownUpdatesSingle | app/api/players/batch/route.ts:22 | of one element, the filter keeps it exactly when its `_id` is stored |
| BatchUpdate.KnownUpdatesAppend | app/api/players/batch/route.ts:20-25 | the filter distributes over concatenation, so it keeps every element naming a stored player, once each, in body order |
| BatchUpdate.UnknownIdsIgnored | app/api/players/batch/route.ts:20-27 | elements naming an `_id` that is not stored have no effect: the result is that of the known elements alone |
| BatchUpdate.DistinctUpdateLands | app/api/players/batch/route.ts:20-27 | when the elements name distinct `_id`s, each named stored player ends up as its own element's `$set` makes it |
| BattingOrder.Compare | components/BattingOrderManager.tsx:128-135 | negative exactly when the first player has a truthy order and the second has none or a larger one; zero exactly when both have the same truthy order or neither has one |
| BattingOrder.CompareConsistent | components/BattingOrderManager.tsx:128-135 | the comparator is antisymmetric, total and transitive, as `Array.prototype.sort` requires |
| BattingOrder.Insert | components/BattingOrderManager.tsx:128 | inserting a player adds exactly that player to the list's elements |
| BattingOrder.InsertSorted | components/BattingOrderManager.tsx:128 | inserting into a sorted list keeps it sorted |
| BattingOrder.SeedOrder | components/BattingOrderManager.tsx:128-136 | the seed list is sorted by the comparator and is a permutation of the team's players |
| BattingOrder.SeedOrderShape | components/BattingOrderManager.tsx:128-135 | in the seed list every player with an order comes before every player without one, and ordered players come by ascending order |
| BattingOrder.OfRankMembers | components/BattingOrderManager.tsx:128-135 | the players of one rank, as the stability statement picks them out, are exactly the listed players with that rank |
| BattingOrder.InsertOfRank | components/BattingOrderManager.tsx:128-135 | insertion puts a player ahead of every player of equal rank and keeps their relative order |
| BattingOrder.SeedOrderStable | components/BattingOrderManager.tsx:128-135 | the sort is stable: players of equal rank, including all the unordered ones, keep the order the team's list gives them |
| BattingOrder.SeedOrderExample | components/BattingOrderManager.tsx:128-135 | players with orders 3, none and 1 are seeded as the order-1 player, the order-3 player, then the unordered one |
| BattingOrder.FindIndex | components/BattingOrderManager.tsx:145-146 | the index found holds the id and no earlier index does |
| BattingOrder.ArrayMove | components/BattingOrderManager.tsx:147 | the moved player lands at the target index; removing it again gives the list without it at the source index; the players are a permutation of the input |
| BattingOrder.MoveKeepsElements | components/BattingOrderManager.tsx:147 | taking an element out and putting it back elsewhere keeps the multiset of elements |
| BattingOrder.ArrayMoveAt | components/BattingOrderManager.tsx:147 | index by index: the players between source and target shift by one towards the source, and every other index is unchanged |
| BattingOrder.ArrayMoveSame | components/BattingOrderManager.tsx:147 | moving a player onto its own index changes nothing |
| BattingOrder.DragEnd | components/BattingOrderManager.tsx:140-150 | with no drop target, or a drop on the dragged player, the list is unchanged; otherwise the dragged player takes the target's index; always a permutation |
| BattingOrder.OrderPatch | components/BattingOrderManager.tsx:158-159 | the element sets the batting order to the given value and supplies no other field |
| BattingOrder.SaveUpdates | components/BattingOrderManager.tsx:157-160 | one element for each of the first `min(11, n)` players, naming that player and setting only its order, to its 1-based position |
| BattingOrder.SaveOrdersDense | components/BattingOrderManager.tsx:157-160 | the orders a save sends are exactly 1..k, pairwise distinct, and all within the schema's [1, 11] |
| BattingOrder.SaveSkipsTail | components/BattingOrderManager.tsx:157 | a player not among the first 11 listed is named by no element of the save |
| BattingOrder.SaveSkipsPastEleven | components/BattingOrderManager.tsx:157 | with distinct ids, every player from position 12 on is left out of the save |
| BattingOrder.BattingOrderManager.constructor | components/BattingOrderManager.tsx:115 | the dialog starts with an empty list |
| BattingOrder.BattingOrderManager.Reseed | components/BattingOrderManager.tsx:125-138 | when open with players, the list becomes the seed order; otherwise it is left as it was |
| BattingOrder.BattingOrderManager.HandleDragEnd | components/BattingOrderManager.tsx:140-150 | the list becomes the result of the drag step on the old list |
| BattingOrder.BattingOrderManager.HandleSave | components/BattingOrderManager.tsx:152-168 | nothing is sent for an empty list (the button is disabled); otherwise the body is the save list of the current order |
| SaveFlow.AfterSave | components/BattingOrderManager.tsx:157-167 | a save adds and removes no player |
| SaveFlow.SaveIdsDistinct | components/BattingOrderManager.tsx:157-160 | the save list of distinct players names each player at most once |
| SaveFlow.SaveSetsPositions | components/BattingOrderManager.tsx:157-160 | each of the first 11 listed players gets its 1-based position as its order with nothing else changed; a listed player from position 12 on is left exactly as stored |
| SaveFlow.SaveLeavesUnlisted | components/BattingOrderManager.tsx:157 | a stored player the dialog does not list is left exactly as stored |
| SaveFlow.SaveChangesOnlyOrders | components/BattingOrderManager.tsx:157-160 | after a save every player is as it was, or as it was with an order in 1..11 |
| SaveFlow.SaveKeepsPlayersValid | app/api/players/batch/route.ts:20-27 | a save keeps every schema-valid player schema-valid, although the batch route runs no validators |
| SaveFlow.SmallTeamOrdersDense | components/BattingOrderManager.tsx:157-160 | for a team of at most 11 players, all listed, the team's orders after a save are exactly 1..n |
| SaveFlow.StaleOrderCollides | components/BattingOrderManager.tsx:157 | a player from position 12 on keeps a stale order, which can equal the order the save gives another player |
| PlayerCreate.SchemaImpliesRequired | app/api/players/route.ts:63 | the route's required-field check is weaker than the schema: every input the schema accepts passes it |
| PlayerCreate.CreateOne | app/api/players/route.ts:60-91 | 400 exactly when a required field is missing, and then no write; 201 exactly when the fields are present and the schema stores the document, which is then what is found under the new id; the store gains that id on 201 and no id otherwise |
| PlayerCreate.CreateMany | app/api/players/route.ts:44-58 | 400 exactly when an element lacks a required field; nothing written unless 201; on 201 the reply carries the handed-out ids and the store keeps every old id and gains exactly those |
| PlayerCreate.Create | app/api/players/route.ts:38-98 | a 400 writes nothing, any failure adds no id, and a 201 returns the handed-out ids, all of them stored, and adds no other id |
| PlayerCreate.Status | app/api/players/route.ts:38-98 | every reply is 201, 400 or 500, and 201 exactly when players were created |
| PlayerCreate.AllHaveRequired | app/api/players/route.ts:47-54 | the loop answers true exactly when every element has a non-empty name, team and role |
| PlayerCreate.ClearCaptains | app/api/players/route.ts:71-76 | afterwards no player of the team is captain; players of other teams and every field but the captain flag are untouched |
| PlayerCreate.ClearCaptainsIdempotent | app/api/players/route.ts:72-75 | clearing a team's captains twice is clearing them once |
| PlayerCreate.SingleInput | app/api/players/route.ts:78-87 | the created object carries `isCaptain` and `isWicketKeeper` as `true` exactly when the body gave `true`, and every other field as given |
| PlayerCreate.CastAll | app/api/players/route.ts:56 | each element of a bulk body is cast by the schema under its own fresh id |
| PlayerCreate.InsertAll | app/api/players/route.ts:56 | every inserted document is in the store afterwards |
| PlayerCreate.InsertAllKeyed | app/api/players/route.ts:56 | inserting documents under their own ids keeps the store keyed by id |
| PlayerCreate.InsertAllLookup | app/api/players/route.ts:56 | with distinct ids, each inserted document is found under its id |
| PlayerCreate.InsertAllKeeps | app/api/players/route.ts:56 | inserting under fresh ids keeps every existing document |
| PlayerCreate.CreateOneKeyed | app/api/players/route.ts:70-87 | a single create keeps the store keyed by id |
| PlayerCreate.BadRequestWritesNothing | app/api/players/route.ts:47-68 | the route answers 400 exactly when an element (bulk) or the body (single) lacks a required field, and then writes nothing |
| PlayerCreate.SingleCaptainIsUnique | app/api/players/route.ts:70-91 | a successful single create with `isCaptain` true leaves the new player as the only captain of its team |
| PlayerCreate.SingleCreateFrame | app/api/players/route.ts:70-87 | a single create changes only captain flags of existing players, none when `isCaptain` is not true, and never a player of another team |
| PlayerCreate.FailedCaptainCreateKeepsClearing | app/api/players/route.ts:70-96 | when the schema rejects a captain after the clearing, the reply is 500 and the team is left with no captain |
| PlayerCreate.SingleCreateDefaults | app/api/players/route.ts:78-87 | the created player has the flags false when absent, the given order with no uniqueness check, and is schema-valid |
| PlayerCreate.BulkFailureWritesNothing | app/api/players/route.ts:44-58 | a bulk create that fails writes nothing |
| PlayerCreate.BulkCreatedAllStored | app/api/players/route.ts:56 | a successful bulk create means the schema accepted every element |
| PlayerCreate.BulkCreatedStore | app/api/players/route.ts:56 | after a successful bulk create the store is the old store with every element inserted |
| PlayerCreate.CastAllIds | app/api/players/route.ts:56 | each document cast from a bulk body carries the id handed out for its element |
| PlayerCreate.BulkSuccessInsertsAll | app/api/players/route.ts:56-57 | a successful bulk create stores every element under its own id, as the schema makes it |
| PlayerCreate.BulkSuccessKeepsExisting | app/api/players/route.ts:56 | a successful bulk create keeps every existing player as it was |
| PlayerCreate.BulkCreatedWhenAllValid | app/api/players/route.ts:45-57 | a bulk body whose elements all have the required fields and pass the schema is created in full, with one id per element |
| PlayerCreate.BulkChecksPass | app/api/players/route.ts:47-57 | when the field check and the schema pass for every element, the reply is 201 with the handed-out ids |
| PlayerCreate.BulkFailsOnOneBadItem | app/api/players/route.ts:47-56 | one element lacking a required field or failing the schema makes the whole bulk create fail |
| PlayerCreate.BulkCreatedIff | app/api/players/route.ts:44-58 | a bulk create succeeds exactly when every element has the required fields and passes the schema |
| PlayerCreate.BulkMayCreateTwoCaptains | app/api/players/route.ts:44-58 | a successful batch with two captains of one team stores both as captains: bulk creation clears no captain |
| Roster.RosterStore.BatchPut | app/api/players/batch/route.ts:6-32 | a non-array body gets 400 and writes nothing; otherwise the store becomes the in-order application of every element's `$set`, and stays keyed by id |
| Roster.RosterStore.PostPlayers | app/api/players/route.ts:38-98 | the new store and the reply are those of the bulk or the single branch, as the body's shape selects |
| Roster.RosterStore.PostMany | app/api/players/route.ts:45-58 | 400 with no write when an element lacks a field; 500 with no write when the schema rejects one; otherwise every element inserted and 201 |
| Roster.RosterStore.PostOne | app/api/players/route.ts:60-91 | 400 with no write when a field is missing; otherwise the captains are cleared when `isCaptain` is true, and then either 500 or the new player is stored and 201 |
| ExportAll.ExportRow | app/api/export/all/route.ts:21-28 | name and role as stored; city or `''`; `Yes`/`No` flags that read back as the stored flags; the order as a number, or `''` when absent or 0 |
| ExportAll.ExportOrderRoundTrip | app/api/export/all/route.ts:27 | for a schema-valid player the order column gives back exactly the stored order |
| ExportAll.ExportRows | app/api/export/all/route.ts:21-28 | one row per player, in the players' order |
| ExportAll.SheetName | app/api/export/all/route.ts:43 | at most 31 characters, a prefix of the team name, the whole name when it fits |
| ExportAll.SheetNamesCollide | app/api/export/all/route.ts:42-44 | two team names that agree on their first 31 characters get the same sheet name |
| ExportAll.TeamSheet | app/api/export/all/route.ts:30-44 | a team's sheet is named by the first `min(31, length)` characters of the team name and holds, at each position, that player's row |
| ExportAll.BuildWorkbook | app/api/export/all/route.ts:18-45 | the workbook has one sheet per team, in the teams' order, each that team's sheet |
| ExportAll.ExportExample | app/api/export/all/route.ts:21-28 | a captain named A with city X, role Bat and order 1 exports as A, X, Bat, Yes, No, 1 |
| BulkEntry.ApplyEdit | components/BulkPlayerDialog.tsx:57 | the edited field takes the new value; the id and every other field stay |
| BulkEntry.WithRowAdded | components/BulkPlayerDialog.tsx:34-46 | the old rows followed by one blank row with the new id |
| BulkEntry.WithoutId | components/BulkPlayerDialog.tsx:50 | exactly the rows whose id differs from the removed one |
| BulkEntry.WithoutIdSingle | components/BulkPlayerDialog.tsx:50 | of one row, the filter keeps it exactly when its id differs |
| BulkEntry.WithoutIdAppend | components/BulkPlayerDialog.tsx:50 | the filter distributes over concatenation, so it keeps every other row, once each, in order |
| BulkEntry.WithRowRemoved | components/BulkPlayerDialog.tsx:48-52 | a list of one row is left as it is; a longer list keeps exactly the rows with another id |
| BulkEntry.WithRowUpdated | components/BulkPlayerDialog.tsx:54-60 | same length and ids; rows with the id get the edit and the others are unchanged |
| BulkEntry.WithoutIdKeepsUnique | components/BulkPlayerDialog.tsx:50 | filtering a list with distinct ids keeps the ids distinct |
| BulkEntry.WithoutIdDropsAtMostOne | components/BulkPlayerDialog.tsx:50 | with distinct ids the filter drops at most one row |
| BulkEntry.UnusedIdFilterKeepsAll | components/BulkPlayerDialog.tsx:50 | filtering out an id no row has leaves the list as it is |
| BulkEntry.RemoveKeepsARow | components/BulkPlayerDialog.tsx:48-52 | with distinct ids the length guard keeps at least one row, and the ids stay distinct |
| BulkEntry.RemoveWithSharedIdEmpties | components/BulkPlayerDialog.tsx:48-52 | the guard counts rows, not ids: two rows sharing an id are removed together |
| BulkEntry.NamedRows | components/BulkPlayerDialog.tsx:66 | exactly the rows whose name is not blank after trimming |
| BulkEntry.NamedRowsSingle | components/BulkPlayerDialog.tsx:66 | of one row, the filter keeps it exactly when its trimmed name is not empty |
| BulkEntry.NamedRowsAppend | components/BulkPlayerDialog.tsx:66 | the filter distributes over concatenation, so it keeps every named row, once each, in the form's order |
| BulkEntry.RowPayload | components/BulkPlayerDialog.tsx:77-84 | the element passes the route's required-field check exactly when the row is named, the team is set and a role is chosen; it sends no order and no image |
| BulkEntry.Payload | components/BulkPlayerDialog.tsx:77-84 | one element per named row, built from that row |
| BulkEntry.PayloadShape | components/BulkPlayerDialog.tsx:77-84 | each element comes from a form row and carries its name trimmed and non-empty, its city trimmed, its role, the dialog's team, and no order or image |
| BulkEntry.PayloadSingle | components/BulkPlayerDialog.tsx:66-84 | one row yields its element when named and nothing otherwise |
| BulkEntry.PayloadAppend | components/BulkPlayerDialog.tsx:66-84 | the payload of two runs of rows is the first run's payload followed by the second's |
| BulkEntry.RowPayloadPassesSchema | components/BulkPlayerDialog.tsx:77-84 | the element sent for a row passes the schema exactly when the row is named, the team is set and the role is in the enum |
| BulkEntry.PayloadHasRequired | components/BulkPlayerDialog.tsx:77-84 | with a team id and non-empty roles every element passes the route's required-field check |
| BulkEntry.PayloadPassesSchema | components/BulkPlayerDialog.tsx:77-84 | with a team id and enum roles every element passes the schema |
| BulkEntry.SubmissionCreatesAll | components/BulkPlayerDialog.tsx:62-100 | a submission with a team id and roles the select offers is created in full by the bulk branch |
| BulkEntry.BulkPlayerForm.constructor | components/BulkPlayerDialog.tsx:30-32 | the form starts with one blank row with id 1 |
| BulkEntry.BulkPlayerForm.AddNewRow | components/BulkPlayerDialog.tsx:34-46 | a blank row with the new id is appended; at least one row, distinct ids |
| BulkEntry.BulkPlayerForm.RemoveRow | components/BulkPlayerDialog.tsx:48-52 | the rows become the guarded filter of the old rows; at least one row remains |
| BulkEntry.BulkPlayerForm.UpdateRow | components/BulkPlayerDialog.tsx:54-60 | the rows become the edited rows; ids stay distinct |
| BulkEntry.BulkPlayerForm.HandleSubmit | components/BulkPlayerDialog.tsx:62-103 | nothing is sent exactly when no row is named; otherwise the payload of the old rows, non-empty, and the form resets to one blank row only when the server accepts |
| Upload.CheckUpload | app/api/upload/route.ts:10-31 | accepted exactly when a file is present, its type starts with `image/` and its size is at most 5 MiB; each rejection names the first check that failed |
| Upload.SizeBoundary | app/api/upload/route.ts:26-31 | an image of exactly 5 MiB passes; one byte more is refused |
| Upload.TypeCheckedBeforeSize | app/api/upload/route.ts:17-31 | a file that is both too large and not an image is reported as not an image |

## Left out

- Rendering, styling, dnd-kit sensors and collision detection, dialogs opening and closing,
  the loading flag, alerts and `fetch`. The server's answer to a bulk submission is the
  `accepted` parameter of `BulkEntry.BulkPlayerForm.HandleSubmit`.
- BattingOrder.DragEnd: `findIndex` returning -1 is not modelled. Both ids must be listed.
  dnd-kit reports only ids of the sortable items, which are built from the same list.
- The `GET` routes, query filters, `sort` and `populate`. The export takes each team's
  players in the order the query returned them, as a parameter. The order of the teams is a
  parameter too.
- BatchUpdate.ApplyUpdates: `bulkWrite`'s partial failures are not modelled, nor its
  interleaving with other requests. Each request is one sequential step.
- Roster.RosterStore.BatchPut: the 500 reply when `bulkWrite` throws is not modelled. That
  happens on a value that does not cast to its field's type, or on a database failure.
  Patch fields are typed here, so every element casts.
- BatchUpdate.SetFields: a `playingRole` outside the enum is not modelled. `Patch.playingRole`
  is a `Role`, while `bulkWrite` runs no validators and would store any string. `null`
  values in `$set` are not modelled either: a supplied field always carries a value. A blank
  name is modelled; it is stored as "" (`BatchUpdate.SetBlankNameStoresEmpty`).
- XLSX encoding, column widths, and the error the library raises for duplicate or invalid
  sheet names. `ExportAll.SheetNamesCollide` shows when two teams' sheet names coincide.
- Text.Prefix: `substring` counts UTF-16 code units. The model counts characters.
- Non-integer and non-numeric batting orders, and Mongoose's casting of numbers and
  strings. Orders are integers.
- PlayerCreate.CreateMany: which element's error `insertMany` reports. The 500 reply
  carries no payload.
- PlayerModel.SchemaErrors: the cast of `teamId` to an ObjectId is not modelled. A
  non-empty string stands for a valid reference, and team existence is not checked, as in
  the route.
- PlayerCreate.HasRequired: JavaScript truthiness is modelled for strings only. A field is
  missing when absent or empty; other JSON types are not modelled.
- The upload's call to blob storage and its 500 reply. A form value that is not a `File`
  is not modelled either; the guard's input is the file's name, type and size.
- Concurrency: interleaved requests, last-write-wins between saves, and the window between
  clearing captains and creating the new one.
- `Date.now()` as the id of a new bulk-entry row is a parameter. It is required to be unused
  (`BulkEntry.BulkPlayerForm.AddNewRow`), which two clicks in the same millisecond would
  violate.
- The teams routes, deletion, the edit dialogs, the login gate and middleware are outside
  this model.
- `createdAt`/`updatedAt` timestamps.

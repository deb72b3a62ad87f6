# Library database visualizer — a verified model

The page draws a fixed library database schema. It has thirteen tables, five stored
procedures, two triggers and three views. The user can pick a table or a procedure to see its
details, hide or show relationship connectors, and switch between three tabs. This project
models the logic under that page and proves what the page relies on:

- `text.dfy` (`Text`): `String.prototype.includes`, which the dashed-stroke rule uses. It also
  has split and trim-start, used to read a printed composite primary key back into its
  columns.
- `schema.dfy` (`Schema`): the table registry and the colour category of each table, with the
  registry's integrity proved table by table:
  - column names are distinct;
  - the primary key is made of the table's own columns;
  - every relationship target is a registered table;
  - every cardinality tag is `many-to-one` or `one-to-many`;
  - every relationship names its joining column.
- `operations.dfy` (`Operations`): the procedures, triggers and views, and the procedure
  lookup (`procedures.find`).
- `layout.dfy` (`Layout`): `getPosition` and `getPath`. A curve is four points, not SVG path
  text. The fixed layout is proved collision-free and inside the canvas. The grid fallback is
  proved injective.
- `diagram.dfy` (`Diagram`): the data the schema and operations tabs show. That is the nodes,
  the connectors, the table detail panel (including the `TypeError` it would raise for an
  unregistered key) and the procedure detail panel.
- `selection.dfy` (`Selection`): the four state cells (tab, active table, active procedure,
  relationship visibility). The handlers appear twice: as pure transitions on `UiState`, and
  as the methods of the class `Visualizer`. The controls the page offers are the `Event`s. The
  invariant `Consistent` is proved to hold in every reachable state. It says the selection is
  exclusive, a selected table is empty or registered, and a selected procedure is listed. So
  the table panel never dereferences a missing table.

Modelling decisions:

- `null` is `None`. A selected table is `Option<string>`: the dropdown's placeholder option
  selects `Some("")`, which is falsy and shows no panel.
- A primary key is held as the list of its columns. The displayed text (`PrimaryKeyText`) is
  derived from that list. `CompositeKeyTexts` proves the derived text equals the source's
  literals, and `KeyColumnsOfKeyText` proves the text reads back to the list.
- `getPosition`'s optional index is an `Option<nat>`. `getPath` requires registered keys.
- Coordinates are `int`. The midpoint `(sx + tx) / 2` is JavaScript floating-point division.
  It is exact here because every fixed coordinate is a multiple of 50 (`HalfOfFifties`).
- Each handler calls two React setters. React applies both before the next render, so each
  handler is one transition.

## Model

| member | source | states |
|---|---|---|
| Text.Includes | src/library-system-visualization.tsx:520 | `String.prototype.includes`; no contract of its own: `IncludesIffOccurs` characterises it |
| Text.IncludesIffOccurs | src/library-system-visualization.tsx:520 | `includes` as read left to right holds exactly when the pattern occurs at some offset of the text |
| Schema.TableOf | src/library-system-visualization.tsx:10-224 | `tables[key]` resolves exactly the thirteen registered keys |
| Schema.EntriesAgree | src/library-system-visualization.tsx:10-224 | `Object.entries(tables)` pairs the i-th key with the i-th table, thirteen of each |
| Schema.TableKeysDistinct | src/library-system-visualization.tsx:10-224 | the thirteen table keys are pairwise distinct |
| Schema.TableType | src/library-system-visualization.tsx:341-355 | exactly the registered tables have a colour category |
| Schema.Colour | src/library-system-visualization.tsx:332-338 | the fill class of each category; no contract of its own: `ColoursDistinct` states that it tells the categories apart |
| Schema.ColoursDistinct | src/library-system-visualization.tsx:332-338 | two categories share a fill class only if they are the same category |
| Schema.JunctionsHaveCompositeKeys | src/library-system-visualization.tsx:341-355 | a registered table is a junction table exactly when its primary key has more than one column |
| Schema.PrimaryKeyText | src/library-system-visualization.tsx:403 | the primary-key text the panel prints; no contract of its own: `CompositeKeyTexts` and `KeyColumnsOfKeyText` state what it prints |
| Schema.KeyColumnsOfKeyText | src/library-system-visualization.tsx:403 | reading the column list back out of a printed primary key gives exactly the columns it was printed from |
| Schema.CompositeKeyTexts | src/library-system-visualization.tsx:47 | the three composite keys print as "book_id, author_id", "book_id, category_id" (line 85) and "event_id, member_id" (line 213) |
| Schema.PrintedKeyNamesColumns | src/library-system-visualization.tsx:403 | in a well-formed table every comma-separated part of the printed key is one of its columns |
| Schema.BooksColumnsUnique | src/library-system-visualization.tsx:11-30 | the column names of `books` are pairwise distinct (they are React keys, line 416) |
| Schema.BooksWellFormed | src/library-system-visualization.tsx:11-30 | `books` has distinct columns, a primary key made of its own columns, registered relationship targets, a known cardinality tag and a joining column on every relationship |
| Schema.AuthorsColumnsUnique | src/library-system-visualization.tsx:31-44 | the column names of `authors` are pairwise distinct (they are React keys, line 416) |
| Schema.AuthorsWellFormed | src/library-system-visualization.tsx:31-44 | `authors` has distinct columns, a primary key made of its own columns, registered relationship targets, a known cardinality tag and a joining column on every relationship |
| Schema.BookAuthorsColumnsUnique | src/library-system-visualization.tsx:45-56 | the column names of `book_authors` are pairwise distinct (they are React keys, line 416) |
| Schema.BookAuthorsWellFormed | src/library-system-visualization.tsx:45-56 | `book_authors` has distinct columns, a primary key made of its own columns, registered relationship targets, a known cardinality tag and a joining column on every relationship |
| Schema.PublishersColumnsUnique | src/library-system-visualization.tsx:57-70 | the column names of `publishers` are pairwise distinct (they are React keys, line 416) |
| Schema.PublishersWellFormed | src/library-system-visualization.tsx:57-70 | `publishers` has distinct columns, a primary key made of its own columns, registered relationship targets, a known cardinality tag and a joining column on every relationship |
| Schema.CategoriesColumnsUnique | src/library-system-visualization.tsx:71-82 | the column names of `categories` are pairwise distinct (they are React keys, line 416) |
| Schema.CategoriesWellFormed | src/library-system-visualization.tsx:71-82 | `categories` has distinct columns, a primary key made of its own columns, registered relationship targets, a known cardinality tag and a joining column on every relationship |
| Schema.BookCategoriesColumnsUnique | src/library-system-visualization.tsx:83-94 | the column names of `book_categories` are pairwise distinct (they are React keys, line 416) |
| Schema.BookCategoriesWellFormed | src/library-system-visualization.tsx:83-94 | `book_categories` has distinct columns, a primary key made of its own columns, registered relationship targets, a known cardinality tag and a joining column on every relationship |
| Schema.MembersColumnsUnique | src/library-system-visualization.tsx:95-113 | the column names of `members` are pairwise distinct (they are React keys, line 416) |
| Schema.MembersWellFormed | src/library-system-visualization.tsx:95-113 | `members` has distinct columns, a primary key made of its own columns, registered relationship targets, a known cardinality tag and a joining column on every relationship |
| Schema.StaffColumnsUnique | src/library-system-visualization.tsx:114-130 | the column names of `staff` are pairwise distinct (they are React keys, line 416) |
| Schema.StaffWellFormed | src/library-system-visualization.tsx:114-130 | `staff` has distinct columns, a primary key made of its own columns, registered relationship targets, a known cardinality tag and a joining column on every relationship |
| Schema.LoansColumnsUnique | src/library-system-visualization.tsx:131-154 | the column names of `loans` are pairwise distinct (they are React keys, line 416) |
| Schema.LoansWellFormed | src/library-system-visualization.tsx:131-154 | `loans` has distinct columns, a primary key made of its own columns, registered relationship targets, a known cardinality tag and a joining column on every relationship |
| Schema.ReservationsColumnsUnique | src/library-system-visualization.tsx:155-170 | the column names of `reservations` are pairwise distinct (they are React keys, line 416) |
| Schema.ReservationsWellFormed | src/library-system-visualization.tsx:155-170 | `reservations` has distinct columns, a primary key made of its own columns, registered relationship targets, a known cardinality tag and a joining column on every relationship |
| Schema.FinesColumnsUnique | src/library-system-visualization.tsx:171-190 | the column names of `fines` are pairwise distinct (they are React keys, line 416) |
| Schema.FinesWellFormed | src/library-system-visualization.tsx:171-190 | `fines` has distinct columns, a primary key made of its own columns, registered relationship targets, a known cardinality tag and a joining column on every relationship |
| Schema.EventsColumnsUnique | src/library-system-visualization.tsx:191-210 | the column names of `events` are pairwise distinct (they are React keys, line 416) |
| Schema.EventsWellFormed | src/library-system-visualization.tsx:191-210 | `events` has distinct columns, a primary key made of its own columns, registered relationship targets, a known cardinality tag and a joining column on every relationship |
| Schema.EventAttendeesColumnsUnique | src/library-system-visualization.tsx:211-224 | the column names of `event_attendees` are pairwise distinct (they are React keys, line 416) |
| Schema.EventAttendeesWellFormed | src/library-system-visualization.tsx:211-224 | `event_attendees` has distinct columns, a primary key made of its own columns, registered relationship targets, a known cardinality tag and a joining column on every relationship |
| Schema.RegistryWellFormed | src/library-system-visualization.tsx:10-224 | every registered table is well formed |
| Schema.RegisteredTablesWellFormed | src/library-system-visualization.tsx:398 | whatever table a registered key resolves to is well formed |
| Operations.FindByName | src/library-system-visualization.tsx:446 | `procedures.find` gives none exactly when no procedure has the name, and otherwise the first one that has it |
| Operations.ProcedureNamesDistinct | src/library-system-visualization.tsx:228-285 | the five procedure names are pairwise distinct (React keys, line 587) |
| Operations.ProcedureNamesNonEmpty | src/library-system-visualization.tsx:228-285 | no procedure name is empty |
| Operations.TriggerAndViewNamesDistinct | src/library-system-visualization.tsx:289-328 | trigger names and view names are pairwise distinct (React keys, lines 603 and 622) |
| Operations.FindListedProcedure | src/library-system-visualization.tsx:446 | looking up a listed procedure by its own name finds that procedure |
| Operations.FindUnlistedProcedure | src/library-system-visualization.tsx:447 | a name no procedure has finds nothing |
| Operations.IssueBookDetails | src/library-system-visualization.tsx:229-240 | `issue_book` has exactly the parameters book_id, member_id, staff_id, loan_days and the five listed steps, in order |
| Operations.TriggerOwnersRegistered | src/library-system-visualization.tsx:289-305 | every trigger belongs to a registered table |
| Operations.ViewSourcesRegistered | src/library-system-visualization.tsx:309-328 | every view reads only registered tables |
| Layout.FixedPosition | src/library-system-visualization.tsx:359-373 | exactly the registered tables have a hand-placed position |
| Layout.GetPosition | src/library-system-visualization.tsx:358-376 | a registered table gets its fixed position whatever the index; any other name gets the grid slot of its index |
| Layout.GetPath | src/library-system-visualization.tsx:379-384 | the curve starts at the source table and ends at the target table; both control points are on the exact horizontal midpoint, the first at the source height and the second at the target height |
| Layout.FixedOnFifties | src/library-system-visualization.tsx:359-373 | every fixed coordinate is a multiple of 50 |
| Layout.HalfOfFifties | src/library-system-visualization.tsx:383 | halving the sum of two multiples of 50 loses nothing, so the midpoint needs no fractions |
| Layout.FixedPointsAgree | src/library-system-visualization.tsx:359-373 | the fixed positions listed in key order agree with the lookup |
| Layout.PointsApart | src/library-system-visualization.tsx:359-373 | the listed fixed positions are pairwise far enough apart for 120×40 node boxes not to overlap |
| Layout.TableAtFixed | src/library-system-visualization.tsx:359-373 | the table found at a registered table's position is that table |
| Layout.FixedAtTable | src/library-system-visualization.tsx:359-373 | a point where some table is found is that table's fixed position |
| Layout.FixedPositionsDistinct | src/library-system-visualization.tsx:359-373 | no two registered tables share a position |
| Layout.NodesDisjoint | src/library-system-visualization.tsx:526-548 | the node boxes of two different registered tables do not overlap |
| Layout.NodesInsideCanvas | src/library-system-visualization.tsx:509 | every registered table's node box lies inside the 800×700 canvas |
| Layout.GridPosition | src/library-system-visualization.tsx:374 | the fallback `{ x: 100 + (index % 5) * 150, y: 100 + Math.floor(index / 5) * 100 }`; no contract of its own: `GridSlots` and `GridInjective` state its slots |
| Layout.GridSlots | src/library-system-visualization.tsx:374 | grid slot i is in column x ∈ {100, 250, 400, 550, 700} and row y = 100 + 100·(i div 5) |
| Layout.GridIndexOfPosition | src/library-system-visualization.tsx:374 | the index can be read back from its grid slot |
| Layout.GridInjective | src/library-system-visualization.tsx:374 | distinct indices get distinct grid slots |
| Layout.PathReversal | src/library-system-visualization.tsx:379-384 | the path from target to source is the path from source to target run backwards |
| Layout.PositionIgnoresIndex | src/library-system-visualization.tsx:358-376 | the index never changes a registered table's position |
| Diagram.ManyTagsDashed | src/library-system-visualization.tsx:520 | both cardinality tags the schema uses contain "many" |
| Diagram.OneToOneSolid | src/library-system-visualization.tsx:520 | a tag without "many", such as "one-to-one", would be drawn solid |
| Diagram.IsDashed | src/library-system-visualization.tsx:520 | `rel.type.includes('many')`; no contract of its own: `ManyTagsDashed` and `OneToOneSolid` state which tags it accepts |
| Diagram.Drawn | src/library-system-visualization.tsx:513-520 | no contract of its own: what every drawn connector satisfies (registered ends, `getPath` between them, dashed), used by `TableConnectors` and `Connectors` |
| Diagram.TableConnectors | src/library-system-visualization.tsx:512-522 | one connector per relationship of the table, in order, from the table to the relationship's registered target, along `getPath` of the two, dashed |
| Diagram.ConnectorLists | src/library-system-visualization.tsx:511-523 | no contract of its own: the outer `map` over the tables, one connector list per table; `ConnectorCount` states its size |
| Diagram.Flatten | src/library-system-visualization.tsx:511-523 | no contract of its own: the array of per-table arrays as rendered, one list after another; `FlattenContains` and `FlattenElement` state what it holds |
| Diagram.FlattenContains | src/library-system-visualization.tsx:511-523 | every element of every per-table list is rendered, at the returned position |
| Diagram.FlattenElement | src/library-system-visualization.tsx:511-523 | every rendered element comes from some per-table list, at the returned list and position |
| Diagram.FlattenDrawn | src/library-system-visualization.tsx:511-523 | rendering lists of drawn connectors renders drawn connectors only |
| Diagram.ConnectorCount | src/library-system-visualization.tsx:511-523 | the tables' connectors, rendered together, number exactly as many as those tables have relationships |
| Diagram.Connectors | src/library-system-visualization.tsx:511-523 | nothing while relationships are hidden; otherwise exactly as many connectors as there are relationships, each between registered tables along `getPath` and dashed |
| Diagram.EveryRelationshipDrawn | src/library-system-visualization.tsx:511-522 | while relationships are shown, every relationship of every table is drawn from that table to its target, at the returned position |
| Diagram.ConnectorIsRelationship | src/library-system-visualization.tsx:511-522 | every connector drawn is some relationship of some registered table, drawn from that table to its target |
| Diagram.Nodes | src/library-system-visualization.tsx:526-548 | one node per registered table in key order, at its fixed position, outlined exactly when it is the selected table |
| Diagram.SelectedNode | src/library-system-visualization.tsx:535-544 | at most one node is outlined, and one is exactly when the selection is a registered table |
| Diagram.TableDetails | src/library-system-visualization.tsx:396-441 | no panel for a null or empty selection, a panel exactly for a registered key, a TypeError otherwise; the panel shows the table's name, key, columns and one link per relationship, every link to a registered table |
| Diagram.TableNamesNonEmpty | src/library-system-visualization.tsx:10-224 | every registered table has a non-empty display name |
| Diagram.LinksNameTheirTargets | src/library-system-visualization.tsx:434 | every relationship link is labelled with its target table's display name |
| Diagram.LinkLabel | src/library-system-visualization.tsx:434 | `tables[rel.to]?.name || rel.to`; no contract of its own: `LinksNameTheirTargets` states that on every panel it is the target's display name |
| Diagram.ViaText | src/library-system-visualization.tsx:436 | `` rel.via ? ` via ${rel.via}` : '' ``; no contract of its own: `LinksCarryVia` states what every link shows |
| Diagram.LinksCarryVia | src/library-system-visualization.tsx:436 | every relationship names its joining column, so every link line of a panel ends in " via " and that column |
| Diagram.SelectedNodeHasPanel | src/library-system-visualization.tsx:535 | the outlined node and the detail panel show the same table |
| Diagram.ProcedureDetails | src/library-system-visualization.tsx:444-447 | the panel shows a listed procedure carrying the selected name, and nothing exactly when the selection is null or names no procedure |
| Diagram.CardShowsItsProcedure | src/library-system-visualization.tsx:589 | clicking a procedure card shows that procedure |
| Selection.SelectTable | src/library-system-visualization.tsx:386-389 | `handleTableClick` on the state; no contract of its own: `SelectTableEffect` states its effect |
| Selection.SelectProcedure | src/library-system-visualization.tsx:391-394 | `handleProcedureClick` on the state; no contract of its own: `SelectProcedureEffect` states its effect |
| Selection.Toggle | src/library-system-visualization.tsx:477 | the relationships button on the state; no contract of its own: `ToggleEffect` states its effect |
| Selection.SetTab | src/library-system-visualization.tsx:805-817 | a tab button on the state; no contract of its own: `SetTabEffect` states its effect |
| Selection.Offered | src/library-system-visualization.tsx:484-491 | which controls the page shows: tab buttons always, the toggle, the dropdown options (placeholder and keys) and the nodes (line 532) on the schema tab, the links of the shown panel (line 431), the procedure cards on the operations tab (line 589); no contract of its own: it is the hypothesis of `ApplyKeepsConsistent` |
| Selection.Apply | src/library-system-visualization.tsx:431 | the handler each control calls; no contract of its own: `ApplyKeepsConsistent` and `Visualizer.Dispatch` state what it keeps |
| Selection.SelectTableEffect | src/library-system-visualization.tsx:386-389 | selecting a table sets it, clears the procedure and keeps the tab and the visibility flag |
| Selection.SelectProcedureEffect | src/library-system-visualization.tsx:391-394 | selecting a procedure sets it, clears the table and keeps the tab and the visibility flag |
| Selection.ToggleEffect | src/library-system-visualization.tsx:477 | the toggle flips the flag, changes nothing else, and toggling twice restores the state |
| Selection.SetTabEffect | src/library-system-visualization.tsx:805-817 | a tab button sets the tab and changes nothing else |
| Selection.InitialConsistent | src/library-system-visualization.tsx:4-7 | the initial state keeps the invariant |
| Selection.ApplyKeepsConsistent | src/library-system-visualization.tsx:386-394 | every offered control keeps the selection exclusive, the table empty or registered and the procedure listed |
| Selection.RunKeepsConsistent | src/library-system-visualization.tsx:386-394 | so does every admissible sequence of controls |
| Selection.ReachablePanels | src/library-system-visualization.tsx:397-402 | in every reachable state the selection is exclusive, the table panel never reads a missing table, and a selected procedure has its panel |
| Selection.UnregisteredSelectionFails | src/library-system-visualization.tsx:398 | a table click with an unregistered key would make the panel fail |
| Selection.FollowFirstLink | src/library-system-visualization.tsx:431 | from the initial page, the first link of the books panel is offered and selects publishers |
| Selection.Visualizer.constructor | src/library-system-visualization.tsx:4-7 | the four cells start as the initial state |
| Selection.Visualizer.HandleTableClick | src/library-system-visualization.tsx:386-389 | the table cell holds the name, the procedure cell is cleared, the others keep their values |
| Selection.Visualizer.HandleProcedureClick | src/library-system-visualization.tsx:391-394 | the procedure cell holds the name, the table cell is cleared, the others keep their values |
| Selection.Visualizer.ToggleRelationships | src/library-system-visualization.tsx:477 | the visibility cell is negated, the others keep their values, so the invariant is kept |
| Selection.Visualizer.SetActiveTab | src/library-system-visualization.tsx:805-817 | the tab cell holds the tab, the others keep their values, so the invariant is kept |
| Selection.Visualizer.Dispatch | src/library-system-visualization.tsx:477-491 | an offered control (tab button, toggle, dropdown, node at line 532, link at line 431, card at line 589) changes the cells as its handler does and keeps the invariant |

## Left out

- JSX markup, Tailwind classes, the SVG arrowhead definitions and the legend: presentation only. Their content is kept only as the data in `Diagram`.
- The workflow tab (`renderWorkflowTab`): static illustrative markup with no state.
- Trigger `code`, view `filters` and view `calculations`: display-only text, never parsed or run.
- The SVG path string `M… C…`: modelled as its four points (`Layout.Path`).
- Layout.GetPath: not modelled for unregistered keys. The source calls `getPosition` without an index there, and JavaScript would compute NaN coordinates.
- Layout.GetPosition: for an unregistered name without an index, the result would be JavaScript's NaN arithmetic, so the function is not defined there.
- Keys that `tables[...]` would find through `Object.prototype` (such as `"constructor"`): treated as unregistered.
- The `key` of each connector path (`${tableName}-${rel.to}-${idx}`): unique by construction from the index, so it is not modelled.
- Hover styles, CSS classes that mark the selected card, and the `fontWeight`/`stroke` of the selected node: represented only by `Diagram.Node.selected`.
- React's rendering and batching: each handler is one atomic transition.
- `src/index.tsx` (mounting the page, `reportWebVitals`), `src/App.tsx` (a wrapper component) and `src/process-polyfill.js` (a browser shim): no logic of the page.

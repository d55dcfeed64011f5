# San Diego government maps — a Dafny model

This project models the logic behind the San Diego government organisation maps. Five
pieces are covered:

- **Organisational chart, first version** (`orgchart-script.js`). Entity rows get a
  jurisdiction, an entity type and a leadership title. Roots are the entities no
  `oversees` edge targets. Each root's subtree is built from `oversees` / `reports_to`
  edges. The forests sit under one container per jurisdiction and a super-root. The chart
  then collapses, expands and toggles nodes, and counts total and visible positions.
- **Organisational chart, second version** (`src/orgchart-script.js`). The same view over
  a fixed, hand-written tree of 31 positions.
- **Network view** (`script.js` and `src/script.js`). Entities and relationships are
  classified, filtered by three dropdowns, searched by name and listed per entity. The
  sizing rules of the force layout are included.
- **Data scripts** (`scripts/`). Python scripts that:
  - check referential integrity of the relationship tables and merge them into a master
    table;
  - report field completeness and duplicate ids and names;
  - combine the entity files into the master entity list;
  - append the regional boards to the boards-and-commissions table.

Rows of a CSV table are `map<string, string>`. The strings are `seq<char>`. A Python
`KeyError`, a missing file and a `DictWriter` `ValueError` are values of `PyError`. A
JavaScript `TypeError` is a value of `JsError`. A `Result` or `Option` carries the error
path everywhere the code has one.

Module layout:

| module | file | concern |
|---|---|---|
| `Wrappers` | wrappers.dfy | `Option`, `Result` |
| `Text` | text.dfy | `includes` / `in`, lower-casing, `trim` / `strip`, `truncateText` |
| `Seqs` | seqs.dfy | `filter`, `slice`, subsequences |
| `Classify` | classify.dfy | `getJurisdiction`, both `getEntityType` rule sets |
| `HierarchyBuilder` | hierarchy.dfy | `processEntitiesWithLeadership`, `buildHierarchyFromData`, `buildHierarchy` |
| `HierarchyProofs`, `HierarchyCorrectedProofs` | hierarchy_proofs.dfy | shape, termination and level facts about the builder |
| `HierarchyExample` | hierarchy_example.dfy | the mayor / fire-chief scenario, end to end |
| `ViewState`, `ViewProofs` | view.dfy, view_proofs.dfy | the collapsible chart: d3 slots, click, collapse, expand, counters |
| `StaticTree` | static_tree.dfy | the fixed chart of the second version |
| `Network`, `NetworkProofs`, `NetworkAsWritten` | network.dfy, network_proofs.dfy | the network view |
| `Rows` | rows.dfy | `row.get`, `row[k]`, `DictWriter` |
| `RelationshipValidation` | relationships.dfy | `validate_relationships.py` |
| `DataQuality` | data_quality.dfy | `validate_data_quality.py` |
| `MasterList` | master_list.dfy | `generate_master_list.py` |
| `RegionalBoards` | regional_boards.dfy | `integrate_regional_boards.py` |

## Model

| member | source | states |
|---|---|---|
| Classify.JurisdictionOf | orgchart-script.js:152-157 | a text containing `City` is city, otherwise `County` makes it county; everything else, including text naming neither, is regional |
| Classify.TreeEntityType | orgchart-script.js:159-168 | on the lower-cased label: elected exactly when it names a mayor, council or supervisor; boards exactly when it is not elected and names a board or commission; departments otherwise |
| Classify.NetworkEntityType | script.js:139-151 | elected exactly as in the chart; boards only when no department word (department, office, agency) occurs and a board word (board, commission, committee) does |
| Classify.ClassifiersAgreeOnElected | src/script.js:121-133 | the chart's and the network's rule sets agree on which labels are elected |
| Classify.ClassifiersDisagreeOnMixedLabels | src/orgchart-script.js:141-150 | a non-elected label naming both a board and a department is a board in the chart and a department in the network |
| HierarchyBuilder.ProcessEntities | orgchart-script.js:138-148 | one record per row in row order; id, name, type and current members kept; jurisdiction and type classified; a row without a leadership entry has no person and its type as title; with an entry, the person is the entry's name and absent exactly when that name is empty, and the title is the entry's title, falling back to the type when that title is empty |
| HierarchyBuilder.Find | orgchart-script.js:207 | the result is an entity with the requested id; none exactly when no entity has that id |
| HierarchyBuilder.FindIsFirst | orgchart-script.js:207 | `find` returns the entity at the first position holding the id, not a later one |
| HierarchyBuilder.ShiftTopLevel | orgchart-script.js:254 | each top node keeps its id, name and children and moves two levels down, so a level-consistent top node with children stops being level-consistent; see Findings |
| HierarchyBuilder.ShiftSubtree | orgchart-script.js:254 | corrected shift: the node moves `k` levels and keeps its id, name, jurisdiction, title, person, child count and child ids |
| HierarchyBuilder.ShiftInverse | orgchart-script.js:254 | shifting a subtree by `k` and then by `-k` gives back the original subtree, so the shift changes levels and nothing else |
| HierarchyBuilder.ShiftSubtrees | orgchart-script.js:254 | corrected shift of every root: same count, each root keeps its id and child count and moves two levels down, shifting back by two recovers each original root, and a level-consistent subtree stays level-consistent |
| HierarchyBuilder.ShiftKeepsLevels | orgchart-script.js:254 | moving a whole subtree by any amount keeps it level-consistent |
| HierarchyBuilder.Roots | orgchart-script.js:182-192 | the roots are a subsequence of the entities, each in the requested jurisdiction and not the target of an `oversees` edge; `HierarchyProofs.RootMembership` gives the converse |
| HierarchyBuilder.BuildNode | orgchart-script.js:195-220 | a built node carries the entity's id and name and the requested level; `HierarchyProofs.BuildNodeShape`, `BuildNodeShows` and `BuildNodeFinishes` give its children, displayed fields and termination |
| HierarchyBuilder.BuildChildren | orgchart-script.js:197-210 | at most one child per matching edge, each at the requested level |
| HierarchyBuilder.Containers | orgchart-script.js:245-276 | at most three containers, none exactly when all three forests are empty, each at level 1; `HierarchyCorrectedProofs.ContainersMembers` names them |
| HierarchyBuilder.BuildHierarchy | orgchart-script.js:225-281 | nothing is built exactly when either table is missing; a built chart is the level-0 `root` with at most three containers; `HierarchyProofs.AsWrittenChartIsEmpty` shows it has none |
| HierarchyBuilder.BuildHierarchyCorrected | orgchart-script.js:225-281 | the same outcomes as written, and every container is at level 1; `HierarchyCorrectedProofs.CorrectedTree` and `CorrectedLevels` give the rest |
| HierarchyProofs.BuildNodeShape | orgchart-script.js:195-220 | a node `buildNode` returns carries the entity's id and the requested level; its children's ids are the child ends of the matching edges that name an entity, in edge order; every child is one level deeper, all the way down |
| HierarchyProofs.BuildNodeShows | orgchart-script.js:212-219 | a node built from a processed row shows the row's id, name and normalised jurisdiction; its person is the leader's name, else the non-empty current members, else none; its title is the leader's non-empty title, else the type label |
| HierarchyProofs.BuildChildrenShape | orgchart-script.js:197-210 | the child list of an edge list: ids in edge order, skipping dangling child ids, each child one level deeper and level-consistent |
| HierarchyProofs.ConsShape | orgchart-script.js:204-210 | putting a well-levelled node before well-levelled siblings keeps the ids in order and the levels |
| HierarchyProofs.BuildNodeFinishes | orgchart-script.js:195-220 | on acyclic data (a rank that strictly decreases along every parent-to-child edge) the recursion finishes once it may nest deeper than the entity's rank |
| HierarchyProofs.BuildChildrenFinishes | orgchart-script.js:197-210 | the same for the child list of an entity |
| HierarchyProofs.ChildDivergesAll | orgchart-script.js:204-210 | one child whose subtree never finishes keeps its parent's child list from finishing |
| HierarchyProofs.SelfOversightDiverges | orgchart-script.js:197-202 | an entity that oversees itself is never finished, whatever the nesting allowance: there is no cycle guard |
| HierarchyProofs.RepeatedEdgeRepeatsChild | orgchart-script.js:197-210 | an edge listed twice gives the child twice: there is no de-duplication |
| HierarchyProofs.DanglingEdgeIgnored | orgchart-script.js:204-210 | an edge whose child id names no entity contributes no child |
| HierarchyProofs.FindProcessed | orgchart-script.js:207 | looking an id up in the processed table finds nothing exactly when no raw row has that id, and otherwise finds the processed record of the first row that has it |
| HierarchyProofs.RootMembership | orgchart-script.js:187-192 | an entity is a root of a jurisdiction exactly when it is listed, belongs to it and no `oversees` edge targets it |
| HierarchyProofs.ReportsToKeepsRoots | orgchart-script.js:187-192 | adding a `reports_to` edge never changes which entities are roots |
| HierarchyProofs.ForestShape | orgchart-script.js:222 | a forest that finishes comes back root for root, in order, each at level 0 and level-consistent |
| HierarchyProofs.ForestFinishes | orgchart-script.js:222 | on acyclic data with enough allowance every forest finishes |
| HierarchyProofs.AsWrittenChartIsEmpty | orgchart-script.js:241-243 | as written, loaded data of any content gives the bare super-root with no container |
| HierarchyProofs.NoRootsUnder | orgchart-script.js:182-184 | a jurisdiction string other than the three normalised names selects no roots |
| HierarchyProofs.TopOnlyShiftBreaksLevels | orgchart-script.js:254 | moving only the top node of a subtree with children breaks level consistency; moving the whole subtree does not |
| HierarchyCorrectedProofs.ContainerShape | orgchart-script.js:248-256 | a container over whole-subtree-shifted level-0 roots is at level 1, holds the roots in order at level 2, and is level-consistent |
| HierarchyCorrectedProofs.CorrectedFinishes | orgchart-script.js:240-281 | on acyclic structural data with enough allowance the corrected builder returns a tree |
| HierarchyCorrectedProofs.ContainersMembers | orgchart-script.js:248-276 | at most three containers, one for each non-empty jurisdiction and nothing else |
| HierarchyCorrectedProofs.ContainersShape | orgchart-script.js:248-276 | over three level-0 forests, each container is at level 1, non-empty and level-consistent, and lists its forest's root ids |
| HierarchyCorrectedProofs.CorrectedTree | orgchart-script.js:240-281 | the corrected tree is the super-root over the containers of the three jurisdiction forests |
| HierarchyCorrectedProofs.ForestsShape | orgchart-script.js:182-222 | each of the three forests lists exactly the root ids of its jurisdiction, each at level 0 and level-consistent |
| HierarchyCorrectedProofs.CorrectedLevels | orgchart-script.js:227-281 | the corrected chart is a level-0 super-root over at most three containers, with every child one level below its parent throughout |
| HierarchyCorrectedProofs.SuperRootLevels | orgchart-script.js:227-233 | a super-root over level-1, level-consistent containers is level-consistent |
| HierarchyCorrectedProofs.CorrectedContainers | orgchart-script.js:248-276 | each container of the corrected chart is at level 1, non-empty, and lists exactly the roots of its jurisdiction, in entity order |
| HierarchyCorrectedProofs.CorrectedCoversJurisdictions | orgchart-script.js:248-276 | every jurisdiction that has a root gets a container |
| HierarchyExample.SampleStructural | orgchart-script.js:177-179 | of the sample edges only the `oversees` and `reports_to` ones are structural |
| HierarchyExample.SampleRoots | orgchart-script.js:187-192 | in the sample, the mayor is the only city root and the other jurisdictions have none |
| HierarchyExample.SampleMayorNode | orgchart-script.js:195-220 | the mayor's node holds the fire chief once at level 1, and nothing for the dangling edge |
| HierarchyExample.SampleForests | orgchart-script.js:170-223 | the sample's city forest is the mayor's node; county and regional are empty |
| HierarchyExample.SampleChart | orgchart-script.js:225-281 | corrected, the sample chart is the super-root over one city container holding the mayor at level 2 and the fire chief at level 3 |
| HierarchyExample.SampleChartAsWritten | orgchart-script.js:241-243 | as written, the same sample gives the bare super-root |
| ViewState.FromHierarchy | orgchart-script.js:281 | `d3.hierarchy` keeps each node's id and level, gives a drawn child array exactly when the data has children, and starts with nothing stashed |
| ViewState.HandleNodeClick | orgchart-script.js:409-415 | the details panel opens exactly when the node has no stash and no non-empty drawn children; otherwise the node toggles and keeps its id and level |
| ViewState.Toggle | orgchart-script.js:417-426 | the node keeps id and level; drawn children move to the stash and nothing is drawn, otherwise the stash is drawn and emptied; `ViewProofs.ToggleTwice` is its partner |
| ViewState.Collapse | orgchart-script.js:428-434 | the node keeps id and level and has nothing drawn; its drawn children become its stash, in order, with their ids and levels and each with nothing drawn; a node with nothing drawn is unchanged |
| ViewState.CollapseChildren | orgchart-script.js:286-288 | the root keeps its child count, and every child ends with nothing drawn |
| ViewState.CollapseAll | orgchart-script.js:446-449 | throws exactly when the root itself has nothing drawn |
| ViewState.CollapseUnbound | src/orgchart-script.js:603-609 | with `this` unbound, collapse throws exactly when there is a drawn child to recurse into; otherwise it agrees with the bound collapse |
| ViewState.CollapseEachUnbound | src/orgchart-script.js:177 | the detached `forEach` throws exactly when some node's collapse throws; otherwise every node is collapsed as the bound collapse does |
| ViewState.InitialView | orgchart-script.js:285-288 | the root keeps id, level and stash; a root with nothing drawn is unchanged; otherwise it keeps its child count and each child keeps its id with nothing drawn |
| ViewState.InitialViewUnbound | src/orgchart-script.js:177 | throws exactly when the root has nothing drawn or some top-level child's unbound collapse throws; otherwise the result equals the guarded initial view |
| ViewState.ExpandAll | orgchart-script.js:436-444 | every node keeps id and level and ends with nothing stashed; a stashed node draws exactly its stash; a node without a stash keeps its drawn children's count, ids and levels; a node with neither is unchanged |
| ViewState.TruncateLabel | orgchart-script.js:527-530 | a missing or empty text gives the empty string; any other text is truncated |
| ViewState.NodeRadius | orgchart-script.js:403-407 | 8 at levels 0 and 3, 12 at level 1, 10 at level 2, 6 at level 4 or deeper and for negative levels |
| ViewState.Total | orgchart-script.js:519-525 | a subtree counts at least itself and each of its drawn children |
| ViewState.TotalOf | orgchart-script.js:519-525 | a list of subtrees counts at least one node per subtree |
| ViewState.Visible | orgchart-script.js:519-525 | visible positions never exceed total positions; `ViewProofs.CountersAgreeIffExpanded` says when they are equal |
| ViewState.VisibleOf | orgchart-script.js:519-525 | the same bound for a list of subtrees |
| ViewProofs.FromHierarchyFaithful | orgchart-script.js:281 | a freshly built view is well slotted (never both slots set) and stands for exactly the built tree |
| ViewProofs.ToggleTwice | orgchart-script.js:417-426 | toggling twice is the identity exactly when at most one slot is set |
| ViewProofs.ToggleKeepsTree | orgchart-script.js:417-426 | a toggle keeps a well-slotted node well slotted and keeps the tree it stands for |
| ViewProofs.ClickTwiceRestores | orgchart-script.js:409-426 | on a well-slotted node a second click undoes a toggling first click |
| ViewProofs.CollapseKeepsTree | orgchart-script.js:428-434 | collapsing keeps a node well slotted and keeps the tree it stands for |
| ViewProofs.ExpandAllKeepsTree | orgchart-script.js:436-444 | `expandAll` keeps a tree well slotted and keeps the tree it stands for |
| ViewProofs.ExpandAllFixpoint | orgchart-script.js:436-444 | `expandAll` changes nothing exactly when no drawn node holds a stash |
| ViewProofs.CountersAgreeIffExpanded | orgchart-script.js:519-525 | visible positions never exceed total positions, and they are equal exactly when no drawn node holds a stash; since one `expandAll` only opens the nodes drawn when it starts, the counters can still differ after it (`ViewProofs.ExpandAllRevealsOneGeneration`) |
| ViewProofs.ForestCountersAgreeIffExpanded | orgchart-script.js:519-525 | the same for a list of sibling subtrees |
| ViewProofs.TotalOfUndrawn | orgchart-script.js:519-525 | siblings with nothing drawn count one position each |
| ViewProofs.CollapseAllShowsTopLevel | orgchart-script.js:446-449 | after `collapseAll` only the root and its children are drawn, and the tree each child stands for is unchanged |
| ViewProofs.ExpandAllRevealsOneGeneration | orgchart-script.js:436-444 | on a collapsed chain of three, one `expandAll` draws only the middle node; the leaf stays stashed |
| ViewProofs.UnboundCollapseThrows | src/orgchart-script.js:177 | the detached callback throws when any top-level child has drawn children, where the bound collapse succeeds and equals `collapseAll` |
| StaticTree.BuildStaticHierarchy | src/orgchart-script.js:152-181 | throws exactly when the entity table never loaded; otherwise it returns the fixed chart whatever the data |
| StaticTree.Leaves | src/orgchart-script.js:225-290 | positions without children are level-consistent and count once each |
| StaticTree.PreorderOfPair | src/orgchart-script.js:180-224 | the pre-order of two siblings is the first's followed by the second's |
| StaticTree.PreorderOfOne | src/orgchart-script.js:180-224 | the pre-order of one sibling is its own |
| StaticTree.CityMayorBranch | src/orgchart-script.js:180-290 | the executive branch is level-consistent with 9 positions |
| StaticTree.CityCouncilBranch | src/orgchart-script.js:291-314 | the legislative branch is level-consistent with 4 positions |
| StaticTree.CityLevels | src/orgchart-script.js:180-224 | the city container sits at level 1, is level-consistent and holds 14 positions |
| StaticTree.CountyLevels | src/orgchart-script.js:315-410 | the county container sits at level 1, is level-consistent and holds 10 positions |
| StaticTree.RegionalLevels | src/orgchart-script.js:411-465 | the regional container sits at level 1, is level-consistent and holds 6 positions |
| StaticTree.StaticChartLevels | src/orgchart-script.js:152-174 | the fixed chart is level-consistent from its level-0 super-root and has 31 positions |
| StaticTree.StaticChartIds | src/orgchart-script.js:180-465 | the pre-order of the fixed chart carries exactly the 31 ids the builders give, in order |
| StaticTree.StaticChartDistinctIds | src/orgchart-script.js:180-465 | no two positions of the fixed chart share an id |
| StaticTree.CityJurisdiction | src/orgchart-script.js:180-314 | every city position carries the `city` jurisdiction |
| StaticTree.CountyJurisdiction | src/orgchart-script.js:315-410 | every county position carries the `county` jurisdiction |
| StaticTree.RegionalJurisdiction | src/orgchart-script.js:411-465 | every regional position carries the `regional` jurisdiction |
| StaticTree.StaticChartJurisdictions | src/orgchart-script.js:162-169 | each container holds only positions of its own jurisdiction |
| StaticTree.StaticChartInitialCollapseThrows | src/orgchart-script.js:177 | the second version never gets past its initial collapse: either loading failed or the detached collapse throws on the city container; the guarded bound collapse would succeed |
| Network.LoadEntities | script.js:96-106 | one entity per row, in order, with id, name and type kept and jurisdiction and type classified |
| Network.IdSet | script.js:259 | the set holds exactly the ids of the given entities |
| Network.ApplyFilters | script.js:246-273 | an entity is drawn exactly when it is loaded and meets both entity dropdowns; a relationship exactly when it is loaded, meets the relationship dropdown and both its endpoints are drawn; both lists keep table order and hold as many copies of each row as pass, so each is exactly the source's `filter` |
| Network.SearchQuery | script.js:188-196 | a query is run exactly when the trimmed, lower-cased input has more than one character, and it is that text |
| Network.SearchResults | script.js:212-215 | at most ten results, each an entity whose lower-cased name contains the query; they are the first matches in entity order, as many as there are matches (repeated rows included) up to ten |
| Network.NodeRadius | script.js:364-369 | 12 exactly for elected officials, 8 for departments, 6 for boards |
| Network.NodeCharge | src/script.js:341-345 | always repulsive; -500 exactly for elected officials, -300 exactly for departments, -200 exactly for boards |
| Network.LinkDistance | src/script.js:347-351 | 80 exactly for hierarchical links, 100 for appointments, 90 for any other category |
| Network.ChargeFollowsRadius | src/script.js:334-345 | a larger node repels more strongly, and two types repel equally exactly when their nodes are the same size |
| Network.LinkDistanceOrder | src/script.js:347-351 | hierarchical links are the shortest and appointments the longest, each exactly for its own category |
| Network.ShouldShowLabel | script.js:354-358 | labels are shown exactly for elected officials, since no department radius exceeds 8 |
| Network.EntityRelationships | script.js:487-491 | exactly the loaded relationships with the entity at either end, in table order, one copy per matching row |
| Network.PartitionRelationships | script.js:494-495 | the first list holds exactly the hierarchical relationships, the second exactly the appointments, each in table order with one copy per matching row |
| Network.ConnectedNodes | script.js:587-598 | an id is highlighted exactly when it is an endpoint of a relationship touching the focus node |
| NetworkProofs.DefaultFiltersShowEverything | script.js:246-273 | with every dropdown on its wildcard all entities are drawn, and exactly the relationships whose endpoints are both loaded |
| NetworkProofs.ApplyFiltersIdempotent | script.js:246-273 | filtering what is drawn again with the same dropdowns changes nothing |
| NetworkProofs.DanglingRelationshipHidden | script.js:262-269 | a relationship whose target names no loaded entity is never drawn |
| NetworkAsWritten.LoadLinked | src/script.js:93-101 | loading keeps one relationship per row, with both endpoints the id strings read |
| NetworkAsWritten.ApplyFiltersAsWritten | src/script.js:238-245 | a relationship passes exactly when its endpoint fields, whatever they hold, are drawn ids and its category passes |
| NetworkAsWritten.Draw | src/script.js:256-268 | drawing keeps the relationship count; when any entity is shown, the drawn relationships' endpoints become node objects |
| NetworkAsWritten.RefilterLosesDrawnRelationships | src/script.js:238-268 | after the first drawing, filtering again with any dropdowns shows none of the relationships that were drawn |
| NetworkAsWritten.EntityRelationshipsAsWritten | src/script.js:465-469 | the listing holds exactly the relationships whose endpoint field, while still an id string, is the entity's id |
| NetworkAsWritten.SidebarLosesDrawnRelationships | src/script.js:465-469 | after the first drawing the sidebar lists none of the drawn relationships, while their kept ids still name the entity |
| NetworkAsWritten.StableIds | script.js:109-119 | reading the kept endpoint ids gives one relationship per row with the ids as loaded |
| NetworkAsWritten.StableIdsSurviveDrawing | script.js:109-119 | with the ids kept aside, drawing changes nothing the filter or the sidebar reads, so refiltering and listing give the same results as before |
| NetworkAsWritten.AsWrittenAgreesBeforeDrawing | src/script.js:238-245 | before anything is drawn, the second version's filter selects exactly what the first version's selects |
| NetworkAsWritten.StableIdsAppend | script.js:109-119 | reading kept ids distributes over concatenation |
| Rows.GetOr | scripts/validate_data_quality.py:78 | `row.get(key, default)`: the cell when the column is present, the default otherwise |
| Rows.Get | scripts/validate_relationships.py:21 | `row[key]`: the cell exactly when the column is present, `KeyError` naming it otherwise |
| Rows.Line | scripts/generate_master_list.py:76-79 | one cell per field name, in field order, empty where the row lacks the column |
| Rows.WriteRows | scripts/integrate_regional_boards.py:60-63 | rows are written in order, each as its line; every written row uses only field names; when a row has a column outside the field names it is the first such row, it raises `ValueError` naming the extra columns, and the rows before it stay written |
| RelationshipValidation.EntityIds | scripts/validate_relationships.py:15-21 | the id set holds exactly the ids of the entity rows; a row without `id` raises `KeyError` |
| RelationshipValidation.CheckRow | scripts/validate_relationships.py:30-40 | a row is checked exactly when both endpoint columns are present and, if an endpoint is unknown, the id column too; then one error per unknown endpoint, each naming an endpoint column, an unknown id and the row's own id, and none exactly when both endpoints are known |
| RelationshipValidation.CheckRows | scripts/validate_relationships.py:30-40 | the loop succeeds exactly when every row's check does; then the error count is the number of rows with an unknown source plus the number with an unknown target, each error names an endpoint column and an unknown id, and there are none exactly when every row's endpoints are known |
| RelationshipValidation.ValidateIntegrity | scripts/validate_relationships.py:9-94 | a `KeyError` is raised exactly when the entity table or one of the relationship scans raises, and an entity table without `id` raises first; otherwise both counts are the table lengths, and the result is `True` exactly when every endpoint of both tables names a known entity |
| RelationshipValidation.Listing | scripts/validate_relationships.py:44-49 | the first ten errors at most, in order, and the count of the rest; a positive rest means ten were shown |
| RelationshipValidation.Pick | scripts/validate_relationships.py:117-126 | reading the columns succeeds exactly when all are present, giving their cells in order |
| RelationshipValidation.MasterRow | scripts/validate_relationships.py:117-126 | a master row has exactly the master columns: the given category, the given endpoints, and id, type, authority source, description and last-verified date taken from the picked cells |
| RelationshipValidation.ToMaster | scripts/validate_relationships.py:114-127 | renaming succeeds exactly when every row has all seven source columns; then one master row per input row, in order, each tagged with the category and carrying that row's endpoints, id, type, authority source, description and last-verified date |
| RelationshipValidation.GenerateMasterRelationships | scripts/validate_relationships.py:110-158 | succeeds exactly when every hierarchical row and every appointment row has its source columns; the merged table has one row per input row |
| RelationshipValidation.GeneratedHierarchyFirst | scripts/validate_relationships.py:113-127 | the merged table starts with the hierarchical rows in input order, each renamed from its source row with category `hierarchical` |
| RelationshipValidation.GeneratedAppointmentsAfter | scripts/validate_relationships.py:130-144 | the appointment rows follow in input order, each renamed from its source row with category `appointment` |
| RelationshipValidation.HierarchicalRowCopied | scripts/validate_relationships.py:117-126 | a renamed hierarchical row has the master columns: `relationship_id`, `relationship_type`, `authority_source`, `description` and `last_verified` copied, `parent_id` as source, `child_id` as target, category `hierarchical` |
| RelationshipValidation.AppointmentRowCopied | scripts/validate_relationships.py:134-143 | a renamed appointment row has the master columns: `appointment_id` as id, `appointer_id` as source, `appointee_entity_id` as target, `appointment_type` as type, `authority_source`, `description` and `last_verified` copied, category `appointment` |
| RelationshipValidation.ValidatedMasterResolves | scripts/validate_relationships.py:89-94 | when the integrity check passes, every row of the merged table links two known entities |
| RelationshipValidation.MasterWritesCleanly | scripts/validate_relationships.py:147-150 | every merged row has exactly the master columns, so writing the file writes every row and never raises |
| DataQuality.Completeness | scripts/validate_data_quality.py:65-79 | one tally per required field, in order; each counts every row, and its missing count is the number of rows with the field absent or blank, zero exactly when there is none |
| DataQuality.FieldTally | scripts/validate_data_quality.py:74-79 | the rows found missing a field are as many as the rows with the field absent or blank |
| DataQuality.MissingIds | scripts/validate_data_quality.py:98-101 | one id (or `unknown`) per row missing the field |
| DataQuality.MissingIdsStep | scripts/validate_data_quality.py:99-101 | one more row adds its id exactly when it misses the field |
| DataQuality.MissingIdsPrefix | scripts/validate_data_quality.py:99-103 | the ids listed for a prefix of the file are a prefix of the ids listed for the whole file |
| DataQuality.ListMissing | scripts/validate_data_quality.py:94-104 | the listing is the first five ids of the rows missing the field, and all of them when there are at most five |
| DataQuality.ListingDone | scripts/validate_data_quality.py:102-103 | stopping at five ids or at the end of the file gives the first five ids |
| DataQuality.IdKeys | scripts/validate_data_quality.py:124 | one id key per row, in order |
| DataQuality.NameKeys | scripts/validate_data_quality.py:125 | one name key per row, in order |
| DataQuality.RawNames | scripts/validate_data_quality.py:132 | one raw name per row, in order |
| DataQuality.Repeats | scripts/validate_data_quality.py:127-133 | no more values are reported than there are positions |
| DataQuality.RepeatsAreRepeats | scripts/validate_data_quality.py:127-133 | every reported value is the value of a position whose key an earlier position already had |
| DataQuality.KeySet | scripts/validate_data_quality.py:129 | the set of keys seen holds exactly the keys listed |
| DataQuality.RepeatsStep | scripts/validate_data_quality.py:127-133 | one more position adds its value exactly when it repeats a key, and adds its key to the seen set |
| DataQuality.RepeatsIffRepeat | scripts/validate_data_quality.py:127-133 | something is reported exactly when two positions share a key (a non-blank one when blanks are skipped) |
| DataQuality.RepeatsCount | scripts/validate_data_quality.py:127-129 | without blank skipping, reports plus distinct keys equal the number of rows |
| DataQuality.DuplicateIds | scripts/validate_data_quality.py:124-129 | duplicate ids plus distinct ids equal the number of rows; there is a duplicate exactly when two rows share an id key |
| DataQuality.DuplicateNames | scripts/validate_data_quality.py:125-133 | at most one report per row; there is one exactly when two rows share a non-blank name key |
| DataQuality.DuplicateNamesAreNames | scripts/validate_data_quality.py:130-133 | each reported duplicate is the raw name of a row whose name key is not blank |
| DataQuality.BlankIdsAreDuplicates | scripts/validate_data_quality.py:124-129 | two rows with blank ids are reported as a duplicate id, since blank ids are not skipped |
| DataQuality.ScanRepeats | scripts/validate_data_quality.py:123-133 | the single pass with a seen set reports exactly the repeating positions' values |
| DataQuality.CheckDuplicates | scripts/validate_data_quality.py:111-145 | the returned counts are the lengths of the duplicate-id and duplicate-name lists |
| MasterList.Counts.Add | scripts/generate_master_list.py:63-73 | adding rows under a category raises the total by that many; a file in no category adds nothing |
| MasterList.Normalize | scripts/generate_master_list.py:49-59 | a master row has exactly the nine master columns |
| MasterList.NormalizeKeepsId | scripts/generate_master_list.py:50 | the id is the input's id, or empty |
| MasterList.NormalizeKeepsNameAndParent | scripts/generate_master_list.py:51-54 | name and parent entity are copied, or empty |
| MasterList.NormalizeKeepsDetails | scripts/generate_master_list.py:55-57 | website, description and legal source are copied, or empty |
| MasterList.NormalizeDefaults | scripts/generate_master_list.py:52-58 | type falls back to position, then empty; jurisdiction to `San Diego County`; last verified to today's date |
| MasterList.NormalizeFields | scripts/generate_master_list.py:49-59 | a normalised row is the master row of its input: copied columns, the three fallbacks, nothing else |
| MasterList.NormalizeAll | scripts/generate_master_list.py:47-61 | one master row per input row, in order |
| MasterList.NormalizeAllAppend | scripts/generate_master_list.py:37-61 | normalising two files together is normalising each, in order |
| MasterList.Combine | scripts/generate_master_list.py:37-73 | the master rows are the normalised rows of the present files in list order, with missing files skipped; when every file has a category, the category counts add up to the rows |
| MasterList.CombineEntityFiles | scripts/generate_master_list.py:11-90 | the master list is the normalised rows of the present input files, and the returned total is its length |
| MasterList.ChainPicks | scripts/generate_master_list.py:64-73 | the first filename fragment that matches decides the category |
| MasterList.InputFileBuckets | scripts/generate_master_list.py:17-23 | each of the five input files falls in its own category |
| MasterList.CountsMatchTotal | scripts/generate_master_list.py:82-88 | the printed breakdown adds up to the printed total |
| MasterList.NormalizeIdempotent | scripts/generate_master_list.py:49-59 | normalising a master row again changes nothing, whatever the date |
| MasterList.MasterWritesCleanly | scripts/generate_master_list.py:76-79 | every master row has exactly the master columns, so writing the file writes every row and never raises |
| RegionalBoards.ConvertRow | scripts/integrate_regional_boards.py:35-49 | a converted row has exactly the thirteen target columns |
| RegionalBoards.ConvertKeepsIds | scripts/integrate_regional_boards.py:36-41 | id and website are copied, or empty |
| RegionalBoards.ConvertKeepsAppointments | scripts/integrate_regional_boards.py:44-45 | appointment authority and meeting schedule are copied, or empty |
| RegionalBoards.ConvertRenamesNames | scripts/integrate_regional_boards.py:37-40 | the name comes from `official_name` and the parent from `parent_organization` |
| RegionalBoards.ConvertRenamesDetails | scripts/integrate_regional_boards.py:42-43 | the description comes from `description_purpose` and the member count from `member_count` |
| RegionalBoards.ConvertType | scripts/integrate_regional_boards.py:38 | the type is `Board` exactly when the official name contains `Board` (case-sensitive), `Committee` otherwise |
| RegionalBoards.ConvertConstants | scripts/integrate_regional_boards.py:39-48 | jurisdiction, creation date, legal source and verification date are the fixed values |
| RegionalBoards.ConvertFields | scripts/integrate_regional_boards.py:35-49 | a converted row has exactly the target columns, each filled from the regional column it corresponds to or fixed |
| RegionalBoards.ConvertAll | scripts/integrate_regional_boards.py:30-50 | one converted row per regional row, in order |
| RegionalBoards.Integrate | scripts/integrate_regional_boards.py:19-68 | no source file ends the run; a missing target file raises; a finished run counts the existing plus the regional rows and writes them under the header; a failed write leaves at least the header |
| RegionalBoards.IntegrateSucceedsIff | scripts/integrate_regional_boards.py:53-63 | the run finishes exactly when every existing row uses only target columns, because converted rows never trip the writer |
| RegionalBoards.IntegratedFile | scripts/integrate_regional_boards.py:53-63 | a finished file is the header, then the existing rows unchanged and in order, then every converted regional row in order |
| Text.ContainsFromOccurrence | orgchart-script.js:152-157 | the substring test holds exactly when the text has an occurrence of the substring at some position |
| Text.Strip | scripts/validate_data_quality.py:78 | the result is the text with a blank prefix and a blank suffix cut off, and starts and ends with a non-space; it is empty exactly when the text is blank |
| Text.Truncate | script.js:360-362 | a text no longer than the limit is unchanged; a longer one keeps its first characters up to the limit, negative limits counting as 0, and gains `...` |
| Seqs.Filter | script.js:248-256 | `filter` keeps exactly the elements meeting the test, never more than there were |
| Seqs.FilterIsSubsequence | script.js:262-269 | `filter` keeps the kept elements in their original order |
| Seqs.Take | script.js:212-215 | `slice(0, n)` is the first `n` elements, or all when there are fewer |

## Left out

- Drawing is left out: d3 layouts, the force simulation's positions, SVG, tooltips,
  zooming, the sidebar markup and the DOM event wiring. The model keeps only the state
  those handlers read and write.
- Loading is left out: `fetch` and the CSV parsing of the JavaScript views, and the file
  reading and writing of the Python scripts. Tables are parameters. A file that cannot be
  read is `None`, or `FileNotFound` where Python raises.
- The printed reports are left out: the messages, the percentages and
  `overall_completeness`. They are floating-point formatting, and the model keeps the
  integer tallies they are computed from.
- `validate_urls`, `generate_quality_report` and `generate_structure_report` are left out.
  They make network requests or only print. `server.py` and `src/server.py` are left out
  because they are a static file server.
- `csv.DictReader` stores the surplus cells of a long row under the key `None`. Rows here
  are maps from column names only.
- `datetime.now()` is the `today` parameter of `MasterList.Normalize`.
- `Text.Lower` and `Text.Strip` treat ASCII only. JavaScript and Python lower-case and
  trim Unicode letters and spaces too.
- Text.Strip: the space set is JavaScript's ASCII set (space, tab, line feed, vertical
  tab, form feed, carriage return). Python's `str.strip` also removes the separators
  `\x1c` to `\x1f`, which `trim` keeps; the model does not tell the two apart.
- JavaScript's `length` and `substring` count UTF-16 code units. Here a string is a
  sequence of characters, so `Text.Truncate` differs from the source on text outside the
  Basic Multilingual Plane.
- Network.SearchQuery: "more than one character" counts characters, while `query.length > 1`
  in script.js:188-196 counts UTF-16 code units. A single character outside the Basic
  Multilingual Plane starts a search in the source but not in the model.
- `csv.DictReader` gives `None` for the missing cells of a short row. Rows here only map
  the columns that are present, so the model reads such a cell as absent. In
  `validate_data_quality.py` the source would call `.strip()` on `None` and raise
  `AttributeError`, and `validate_relationships.py` would print `None` as an id. Neither
  outcome is modelled.
- HierarchyBuilder.ProcessEntities: the hard-coded leadership table is a parameter
  (`LeadershipMap`), not its 2025 contents.
- HierarchyBuilder.BuildNode: the recursion is bounded by a fuel count, and `None` stands
  for a recursion that never finishes, where JavaScript would overflow its stack.
  Divergence is proved for self-oversight. Termination is proved for acyclic data with
  fuel above every rank. Stack depth limits are not modelled.
- The order of `descendants()` is not modelled. Only the counts and the set of nodes
  reached matter to the code that uses it.
- ViewState.ExpandAll: a node with both slots set (never produced by the handlers; see
  `ViewProofs.WellSlotted`) is modelled as drawing its stash and not visiting the old
  drawn children.
- DataQuality.CheckDuplicates: ids and names are scanned in two passes over the rows. The
  source makes one pass, but the two keys do not interact, so the lists are the same.
- The network search list, highlight styling and the tick handler are left out. Only the
  sets they compute are modelled (`SearchResults`, `ConnectedNodes`).

## Findings

| source | as written | input that shows it | evidently intended | confidence | as-written member | corrected member |
|---|---|---|---|---|---|---|
| orgchart-script.js:241-243 | `buildHierarchy` asks `buildHierarchyFromData` for "City of San Diego", "County of San Diego" and "Regional". Entities carry the normalised names "city", "county" and "regional", so no root ever matches and no container is built | the mayor / fire-chief sample: mayor `City of San Diego`, fire chief overseen by the mayor | each jurisdiction queried by its normalised name, so the mayor appears under the city container | not executed | HierarchyProofs.AsWrittenChartIsEmpty | HierarchyCorrectedProofs.CorrectedContainers |
| orgchart-script.js:254 | each root is copied with `level + 2`, but its descendants keep the levels built from 0, so a child sits one level above its parent | any root with a child: root level 0 becomes 2, its child stays at 1 | the whole subtree moves two levels, so every child is one level below its parent | not executed | HierarchyProofs.TopOnlyShiftBreaksLevels | HierarchyCorrectedProofs.CorrectedLevels |
| src/orgchart-script.js:177 | `this.root.children.forEach(this.collapse)` passes `collapse` unbound, so the recursive `this.collapse(child)` throws `TypeError` on any top-level node with children | the fixed chart: the city container has children | the bound callback `child => this.collapse(child)` of the first version, which collapses every top-level subtree | not executed | StaticTree.StaticChartInitialCollapseThrows | ViewProofs.CollapseAllShowsTopLevel |
| src/script.js:238-268 | `applyFilters` tests `rel.source` / `rel.target`, which `d3.forceLink` replaces with node objects on the first drawing, so a second filtering drops every relationship that was drawn; `getEntityRelationships` (src/script.js:465-469) compares the same fields and loses the drawn relationships from the sidebar too (`NetworkAsWritten.SidebarLosesDrawnRelationships`) | draw once with any entity shown and any relationship between shown entities, then change a dropdown | endpoint ids kept aside at load (`sourceId` / `targetId`), as the first version does, so refiltering is unaffected by drawing | not executed | NetworkAsWritten.RefilterLosesDrawnRelationships | NetworkAsWritten.StableIdsSurviveDrawing |

# ParentFlow org-chart core in Dafny

ParentFlow is an org-chart editor. Its users drag "position" nodes between
numbered levels and pick a parent when a node moves below the root. They can
also delete a node together with everything below it. The editor draws
rounded elbow connectors between the boxes of parents and children.

This project models the two parts of ParentFlow that hold real logic.

**The node store** (`OrgChartStore`, over the record type in `PositionModel`):
- The state is a flat, insertion-ordered collection of nodes, held in the class `Store`.
- It has two derived views:
  - nodes by level, a `map<int, seq<Node>>` in which level -1, the unassigned pool, is a real bucket;
  - children by parent id.
- It has four actions: append, move, descendant query and cascading removal.
- The loop-based methods (`NodesByLevel`, `ChildrenByParent`, `GetDescendants`) are each proved equal to a specification function. The properties the store promises are proved about those functions as lemmas.
- The descendant query terminates only when the parent relation is acyclic. `Acyclic` states this as "some rank falls strictly along every parent pointer". The lemmas in the last part of the module say which actions keep the relation acyclic.

**The application component** (`ConnectorRouting`, `AppComponent`):
- connector geometry, with exact `real` coordinates and the path as a list of move, line and quadratic-curve commands;
- the batch that draws one connector per drawable node;
- the view helpers for a level's bucket, the pool and a parent's name;
- the rule that turns a drop between two lists into a store call;
- the component's own state (edit mode, the visible levels, the connectors) as the class `App`.

Inputs from outside the core are parameters:
- the parent chosen in the selection dialog, as `Option<string>`;
- the answer of the delete confirmation, as `bool`;
- the measured boxes of the rendered nodes, as `map<string, Rect>` keyed by node id;
- the container's box, as `Option<Rect>`, absent before the view exists.

Three facts about the code shape the model:
- The code tests the parent id for truthiness, so children by parent skips the empty string as well as null (`src/app/core/store/org-chart.store.ts:40`). `ChildrenMapEntries` states the key condition with `p != ""`.
- The descendant query returns ids depth first, with the children in collection order (`src/app/core/store/org-chart.store.ts:67-72`). `DescendantsSplit` states this order.
- The descendant query has no visited set. The model makes an acyclic parent relation a precondition of the query and of removal.

## Model

| member | source | states |
|---|---|---|
| `OrgChartStore.SeedUniqueIds` | src/app/core/store/org-chart.store.ts:4-14 | the nine seed nodes have pairwise distinct ids |
| `OrgChartStore.SeedRoots` | src/app/core/store/org-chart.store.ts:4-14 | a seed node has no parent exactly when its level is 0 or -1 |
| `OrgChartStore.SeedLayered` | src/app/core/store/org-chart.store.ts:4-14 | every seed parent id names a seed node exactly one level above the child |
| `OrgChartStore.SeedAcyclic` | src/app/core/store/org-chart.store.ts:4-14 | the seed's parent relation is acyclic, so the descendant query terminates on it |
| `OrgChartStore.Seed` | src/app/core/store/org-chart.store.ts:4-14 | the nine initial nodes with their ids, names, Thai names, salary types, levels, parents and sections |
| `OrgChartStore.ByLevel` | src/app/core/store/org-chart.store.ts:20-32 | the level view: a key for each level that occurs, mapped to the in-order filter of the nodes at that level |
| `OrgChartStore.ChildrenMap` | src/app/core/store/org-chart.store.ts:35-48 | the children view: a key for each truthy parent id that occurs, mapped to the in-order filter of the nodes with that parent id |
| `OrgChartStore.Relocated` | src/app/core/store/org-chart.store.ts:59 | a node with the new level and parent and every other field kept |
| `OrgChartStore.Descendants` | src/app/core/store/org-chart.store.ts:65-75 | the descendant list: the children of `x` in collection order, each followed by its own descendants |
| `OrgChartStore.DescendantsOfChildren` | src/app/core/store/org-chart.store.ts:69-72 | the per-child loop: for each child in turn, its id and then its descendants |
| `OrgChartStore.Pruned` | src/app/core/store/org-chart.store.ts:77-82 | the in-order filter of the nodes whose id is neither `x` nor one of its descendants |
| `OrgChartStore.LayeredIsAcyclic` | src/app/core/store/org-chart.store.ts:65-75 | unique ids plus parents one level up give a rank that falls along every parent pointer |
| `OrgChartStore.FindById` | src/app/app.component.ts:270 | no result exactly when no node has the id; otherwise the node at the first position with that id |
| `OrgChartStore.ByLevelSnoc` | src/app/core/store/org-chart.store.ts:24-29 | pushing a node appends it to its own level's bucket, creating the bucket if missing, and leaves every other bucket alone |
| `OrgChartStore.ByLevelPlacement` | src/app/core/store/org-chart.store.ts:20-32 | every node is in the bucket of its own level, -1 included; a bucket holds only nodes of its level, in collection order |
| `OrgChartStore.ByLevelPartition` | src/app/core/store/org-chart.store.ts:20-32 | the buckets concatenated in order of first appearance are a permutation of the collection |
| `OrgChartStore.ChildrenMapEntries` | src/app/core/store/org-chart.store.ts:35-48 | `p` is a key exactly when `p` is non-empty and some node has parent id `p`; each entry is non-empty and in collection order |
| `OrgChartStore.ChildrenMapSnoc` | src/app/core/store/org-chart.store.ts:39-46 | a node with a truthy parent id is appended to that parent's entry, created if missing; any other node changes nothing |
| `OrgChartStore.Moved` | src/app/core/store/org-chart.store.ts:55-63 | same length and order; every node with the id gets the new level and parent with all other fields kept; every other node is unchanged |
| `OrgChartStore.MovedUnknownId` | src/app/core/store/org-chart.store.ts:55-63 | moving an id no node has changes nothing |
| `OrgChartStore.MovedIdempotent` | src/app/core/store/org-chart.store.ts:55-63 | repeating the same move changes nothing more |
| `OrgChartStore.MovedPlaces` | src/app/core/store/org-chart.store.ts:55-63 | after the move, all nodes with the id, duplicates included, have the new level and parent, and every node with another id is still present |
| `OrgChartStore.DescendantsEmpty` | src/app/core/store/org-chart.store.ts:65-75 | the descendants are empty exactly when no node has the given parent id |
| `OrgChartStore.DescendantsSplit` | src/app/core/store/org-chart.store.ts:67-72 | for the i-th child in collection order, the result is the part for the earlier children, then that child's id, then its own descendants, then the part for the later children |
| `OrgChartStore.ChildInDescendants` | src/app/core/store/org-chart.store.ts:69-72 | a child's id, and every descendant of the child, is among the parent's descendants, even when no node has the parent's id |
| `OrgChartStore.DescendantsTransitive` | src/app/core/store/org-chart.store.ts:65-75 | a descendant's descendants are descendants |
| `OrgChartStore.GrandchildInDescendants` | src/app/core/store/org-chart.store.ts:67-72 | a child and a grandchild are both among the descendants |
| `OrgChartStore.SubtreeClosed` | src/app/core/store/org-chart.store.ts:65-75 | a node whose parent is `x` or a descendant of `x` is itself a descendant of `x` |
| `OrgChartStore.DescendantsSound` | src/app/core/store/org-chart.store.ts:65-75 | every descendant is the id of a node whose parent is `x` or another descendant |
| `OrgChartStore.PrunedKeeps` | src/app/core/store/org-chart.store.ts:77-82 | removal keeps exactly the nodes whose id is neither `x` nor a descendant of `x`, each as often as before, in their original relative order |
| `OrgChartStore.PrunedLeavesNoOrphans` | src/app/core/store/org-chart.store.ts:77-82 | no remaining node has `x` or a removed descendant as its parent |
| `OrgChartStore.FilterKeepsAcyclic` | src/app/core/store/org-chart.store.ts:81 | removing nodes keeps the parent relation acyclic |
| `OrgChartStore.AddFreshKeepsAcyclic` | src/app/core/store/org-chart.store.ts:51-53 | appending a node keeps the relation acyclic when its id is unused, no existing node names that id as its parent, and the node is not its own parent |
| `OrgChartStore.MovedKeepsAcyclic` | src/app/core/store/org-chart.store.ts:55-63 | a move to no parent, or to a parent outside the moved node's own subtree, keeps the relation acyclic |
| `OrgChartStore.Store.constructor` | src/app/core/store/org-chart.store.ts:4-17 | the store starts with the seed collection |
| `OrgChartStore.Store.AddNode` | src/app/core/store/org-chart.store.ts:51-53 | the new collection is the old one with the node appended |
| `OrgChartStore.Store.MoveNode` | src/app/core/store/org-chart.store.ts:55-63 | the new collection is the old one moved as `Moved` states |
| `OrgChartStore.Store.GetDescendants` | src/app/core/store/org-chart.store.ts:65-75 | the recursive accumulation returns exactly `Descendants` of the current collection |
| `OrgChartStore.Store.RemoveNode` | src/app/core/store/org-chart.store.ts:77-82 | the new collection is the old one without the node and without its descendants computed before removal |
| `OrgChartStore.Store.NodesByLevel` | src/app/core/store/org-chart.store.ts:20-32 | the bucket-building loop returns exactly the level view `ByLevel` |
| `OrgChartStore.Store.ChildrenByParent` | src/app/core/store/org-chart.store.ts:35-48 | the map-building loop returns exactly the children view `ChildrenMap` |
| `Seqs.Filter` | src/app/core/store/org-chart.store.ts:81 | an element is kept exactly when it occurs and satisfies the predicate; the result is no longer than the input |
| `Seqs.FilterIsSubsequence` | src/app/core/store/org-chart.store.ts:81 | filtering keeps the relative order of the kept elements |
| `ConnectorRouting.CornerRadius` | src/app/app.component.ts:230-231 | the radius is between 0 and 20, at most half the horizontal offset, at most the distance to the middle line, and equal to one of the three |
| `ConnectorRouting.Route` | src/app/app.component.ts:216-249 | the path starts with a move to the parent anchor and ends with a line to the child anchor; it is the two-command straight line exactly when the offset is below 2, with no curves then |
| `ConnectorRouting.RouteIsRoundedElbow` | src/app/app.component.ts:228-249 | otherwise it is six commands: a vertical line from the parent to `mid - r`, a quarter turn towards the child with its corner on the middle line in line with the parent, a line across that stays between the two anchors without reversing direction, a quarter turn with its corner on the middle line in line with the child, and a vertical line to the child; the child may be drawn above its parent, and only `RouteDescends` says "down" |
| `ConnectorRouting.RouteDescends` | src/app/app.component.ts:228-249 | when the child is not above the parent, the vertical legs never overshoot the middle line |
| `ConnectorRouting.ConnectorExample` | src/app/app.component.ts:207-249 | boxes (0,0,100,40) and (200,100,100,40) give anchors (50,40) and (250,100), radius 20 and the six commands through the middle line at 70 |
| `ConnectorRouting.ConnectorExampleStraight` | src/app/app.component.ts:207-226 | a horizontal offset of 1 gives the single line from (50,40) to (51,100) |
| `ConnectorRouting.ParentAnchor` | src/app/app.component.ts:207-208 | the bottom centre of the parent's box, relative to the container: (left - container.left + width/2, top - container.top + height) |
| `ConnectorRouting.ChildAnchor` | src/app/app.component.ts:210-211 | the top centre of the child's box, relative to the container: (left - container.left + width/2, top - container.top) |
| `ConnectorRouting.Connector` | src/app/app.component.ts:201-251 | the connector between two boxes starts with a move to the parent anchor and ends with a line to the child anchor |
| `ConnectorRouting.Batch` | src/app/app.component.ts:195-254 | the connectors the per-node loop pushes, at most one per node, in collection order |
| `ConnectorRouting.BatchPerDrawableNode` | src/app/app.component.ts:195-200 | one connector per node with a truthy parent id and both boxes measured, in collection order; every other node is skipped |
| `AppComponent.GetNodesForLevel` | src/app/app.component.ts:260-262 | the level's bucket, or the empty list when no bucket exists: in both cases the in-order filter of the level |
| `AppComponent.AvailableNodes` | src/app/app.component.ts:264-266 | a node is in the pool exactly when its level is negative, as often as in the collection; the pool keeps collection order |
| `AppComponent.AvailableIsPoolBucket` | src/app/app.component.ts:264-266 | while no level is below -1, the pool equals the bucket of level -1 |
| `AppComponent.GetParentName` | src/app/app.component.ts:268-272 | "No Parent" for a falsy parent id, "Unknown Parent" when no node has it, else the name of the first node with that id |
| `AppComponent.Apply` | src/app/app.component.ts:144-173 | the store after the call a drop makes: unchanged for no call, otherwise the move of `moveNode` |
| `AppComponent.DropDecision` | src/app/app.component.ts:138-175 | a move only of the dragged id; root level and pool get no parent, a deeper level gets the chosen truthy parent; no store call exactly for the same list, an unknown list, an empty level above, or a cancelled dialog |
| `AppComponent.DropUnderOfferedParent` | src/app/app.component.ts:147-169 | a drop into level N under a parent offered from level N-1, other than the dragged node, puts the dragged node at level N under that parent, and the parent stays |
| `AppComponent.DropCanMakeNodeItsOwnParent` | src/app/app.component.ts:147-169 | choosing the dragged node itself from the offered parents is a move that makes it its own parent: the relation is no longer acyclic |
| `AppComponent.SeedCeoBecomesItsOwnParent` | src/app/app.component.ts:147-169 | on the seed, dropping the CEO into level 1 and choosing the CEO breaks acyclicity |
| `AppComponent.DropDecisionChecked` | src/app/app.component.ts:147-169 | the drop rule with parents inside the dragged node's subtree refused: a chosen parent is neither the node nor a descendant, and whenever the as-written call has no such parent the checked call is that call |
| `AppComponent.DropDecisionCheckedKeepsAcyclic` | src/app/app.component.ts:147-169 | the checked drop keeps the parent relation acyclic |
| `AppComponent.App.constructor` | src/app/app.component.ts:39-50 | not in edit mode, levels 0 to 3, no connectors |
| `AppComponent.App.ToggleEditMode` | src/app/app.component.ts:52-54 | edit mode flips |
| `AppComponent.App.AddLevel` | src/app/app.component.ts:56-58 | the current count is appended, so levels 0 to n-1 become 0 to n; it needs only the levels to be 0 to n-1, and the store is untouched |
| `AppComponent.App.OnSave` | src/app/app.component.ts:60-63 | edit mode ends |
| `AppComponent.App.Drop` | src/app/app.component.ts:132-177 | the store is changed by the checked drop's call and nothing else; acyclicity is kept |
| `AppComponent.App.DeleteNode` | src/app/app.component.ts:102-126 | the count shown is the number of descendants; the store loses the subtree only when the deletion is confirmed |
| `AppComponent.App.CalculateConnectors` | src/app/app.component.ts:186-257 | without a container the connectors stay; otherwise they become the batch over the current collection and boxes |

## Left out

- Dialogs are not modelled: the parent selection and create-node dialogs, and the delete confirmation. Their answers are parameters.
- `openCreateDialog` (`src/app/app.component.ts:84-100`) is not modelled. The create form's result has no level and no parent field, so the record it builds is not a complete node. `Store.AddNode` takes a complete node with its id supplied.
- `generateId` is left out because it draws on `Math.random`. Ids are parameters.
- DOM access is not modelled: element lookup by the `node-` id prefix, `getBoundingClientRect`, the view-child plumbing and resize listeners. These become the `container` and `rects` parameters.
- `setTimeout`/`refreshLines` and `alert` are side effects with no bearing on the store, so they are left out.
- The SVG text that holds the path is not modelled. The path is a list of commands instead.
- Numbers are exact reals, not IEEE doubles: rounding, infinities and NaN are not modelled.
- The same-list branch of `drop` (`moveItemInArray` on a derived array) is left out. It is a library call that leaves the store alone, and `DropDecision` returns no call for it.
- Reactivity (signals, computed views and their memoisation) is not modelled. The views are functions of the current collection.
- `DropDecision`: the list's DOM id is taken as already classified into `level-N` with `N >= 0`, `available-list`, or another name. The `parseInt` parsing of the id text is not modelled.
- `OrgChartStore.Descendants`, `Store.GetDescendants`, `Store.RemoveNode`, `App.DeleteNode` and the `App` invariant `Valid()` require the whole parent relation to be acyclic. The source has no such precondition: it fails only when a cycle is reachable below the queried node, where it recurses until the stack overflows. The model therefore also excludes queries and removals whose own subtree has no cycle while a cycle exists elsewhere in the collection; for example, with a self-parented node `a` and a separate node `b`, the source returns `[]` for `getDescendants("b")`, which the model does not cover.
- `App.Drop` applies the checked drop rule (see Findings). It therefore refuses a parent inside the dragged node's own subtree, which the source accepts.
- `App.DeleteNode` does not model the text of the confirmation message.

## Findings

| source | as written | input that shows it | evidently intended | confidence | as-written member | corrected member |
|---|---|---|---|---|---|---|
| src/app/app.component.ts:148-165 | the parents offered for a drop into level N are all nodes of level N-1, including the dragged node when it sits at level N-1, and the chosen one is passed to `moveNode` unchecked | seed data: drag the CEO (id "1", level 0) into the level-1 list and choose "1" in the dialog. The CEO becomes its own parent, and a later delete of "1" calls `getDescendants("1")` (`src/app/app.component.ts:104`), which recurses until the stack overflows and throws, so the delete aborts before its confirmation opens | refuse a parent that is the dragged node or one of its descendants | not executed | `AppComponent.DropCanMakeNodeItsOwnParent` | `AppComponent.DropDecisionChecked` |

/**
 * The application component: the small view helpers over the store, the
 * rule by which a drag-and-drop between lists turns into a store call, and
 * the component's own state (edit mode, the visible levels, the drawn
 * connectors).  Dialog answers and measured boxes come in as parameters.
 */
module AppComponent {

  import opened Wrappers
  import opened PositionModel
  import opened Seqs
  import opened OrgChartStore
  import opened ConnectorRouting

  // ---------------------------------------------------------------------------
  // View helpers

  /** The bucket of level `levelIndex`, or the empty list when no node is at that level. */
  function GetNodesForLevel(s: seq<Node>, levelIndex: int): (r: seq<Node>)
    ensures r == AtLevel(s, levelIndex)
  {
    var m := ByLevel(s);
    if levelIndex in m then m[levelIndex] else
      FilterNone(s, IsAt(levelIndex));
      []
  }

  function IsUnassigned(): Node -> bool { (n: Node) => n.levelIndex < 0 }

  /** The pool: the nodes at a negative level, in collection order. */
  function AvailableNodes(s: seq<Node>): (r: seq<Node>)
    ensures forall n :: n in r <==> n in s && n.levelIndex < 0
    ensures IsSubsequence(r, s)
    ensures forall n :: multiset(r)[n] == if n.levelIndex < 0 then multiset(s)[n] else 0
  {
    FilterIsSubsequence(s, IsUnassigned());
    FilterCounts(s, IsUnassigned());
    Filter(s, IsUnassigned())
  }

  /** While no level is below -1, the pool is exactly the bucket of level -1. */
  lemma AvailableIsPoolBucket(s: seq<Node>)
    requires forall n :: n in s ==> n.levelIndex >= -1
    ensures AvailableNodes(s) == GetNodesForLevel(s, -1)
  {
    assert forall i :: 0 <= i < |s| ==> s[i] in s;
    FilterCongruent(s, IsUnassigned(), IsAt(-1));
  }

  /**
   * The label for a node's parent: "No Parent" when it has no truthy parent
   * id, otherwise the name of the first node with that id, or
   * "Unknown Parent" when there is none.
   */
  function GetParentName(s: seq<Node>, node: Node): (name: string)
    ensures !Truthy(node.parentId) ==> name == "No Parent"
    ensures Truthy(node.parentId) && (forall n :: n in s ==> n.id != node.parentId.value) ==>
              name == "Unknown Parent"
    ensures Truthy(node.parentId) && (exists n :: n in s && n.id == node.parentId.value) ==>
              exists i :: 0 <= i < |s| && s[i].id == node.parentId.value && name == s[i].name &&
                          forall j :: 0 <= j < i ==> s[j].id != node.parentId.value
  {
    if !Truthy(node.parentId) then "No Parent"
    else match FindById(s, node.parentId.value)
      case Some(parent) => parent.name
      case None => "Unknown Parent"
  }

  // ---------------------------------------------------------------------------
  // Dropping a node into another list

  /**
   * Where a node was dropped: the list of a level (container id `level-N`)
   * or a list with some other id, such as `available-list`.
   */
  datatype DropTarget = LevelList(index: nat) | NamedList(name: string)

  /** The store call a drop makes, if any. */
  datatype StoreCall = NoCall | MoveCall(id: string, level: int, parent: Option<string>)

  function Apply(s: seq<Node>, call: StoreCall): seq<Node> {
    match call
    case NoCall => s
    case MoveCall(id, level, parent) => Moved(s, id, level, parent)
  }

  /**
   * The store call of a drop between two different lists.  `choice` is the
   * parent selection dialog's answer; it is asked for only when moving to a
   * level below the root and the level above has nodes.
   */
  function DropDecision(s: seq<Node>, sameContainer: bool, target: DropTarget,
                        nodeId: string, choice: Option<string>): (r: StoreCall)
    ensures r.MoveCall? ==> !sameContainer && r.id == nodeId
    ensures r.MoveCall? ==> (r.parent.None? <==> r.level <= 0)
    ensures r.MoveCall? ==>
              || (r.level == -1 && target == NamedList("available-list"))
              || (r.level >= 0 && target == LevelList(r.level))
    ensures r.MoveCall? && r.level > 0 ==>
              r.parent == choice && Truthy(choice) && AtLevel(s, r.level - 1) != []
    ensures r == NoCall <==>
              || sameContainer
              || (target.NamedList? && target.name != "available-list")
              || (target.LevelList? && target.index > 0 &&
                  (AtLevel(s, target.index - 1) == [] || !Truthy(choice)))
  {
    if sameContainer then NoCall
    else match target
      case LevelList(n) =>
        if n == 0 then MoveCall(nodeId, 0, None)
        else if GetNodesForLevel(s, n - 1) == [] then NoCall
        else if Truthy(choice) then MoveCall(nodeId, n, choice)
        else NoCall
      case NamedList(name) =>
        if name == "available-list" then MoveCall(nodeId, -1, None) else NoCall
  }

  /**
   * A drop into level N under a parent offered from level N-1 other than the
   * dragged node itself leaves every node with the dragged id at level N under
   * that parent, and the parent still at level N-1.
   */
  lemma DropUnderOfferedParent(s: seq<Node>, n: nat, nodeId: string, parent: Node)
    requires n > 0 && parent in AtLevel(s, n - 1)
    requires parent.id != "" && parent.id != nodeId
    ensures var s' := Apply(s, DropDecision(s, false, LevelList(n), nodeId, Some(parent.id)));
      && (forall m :: m in s' && m.id == nodeId ==> m.levelIndex == n && m.parentId == Some(parent.id))
      && parent in s'
  {
    assert parent in GetNodesForLevel(s, n - 1);
    DropIntoLevel(s, n, nodeId, Some(parent.id));
    MovedPlaces(s, nodeId, n, Some(parent.id));
  }

  /** A drop into a level below the root with parents on offer and a parent chosen is a move there. */
  lemma DropIntoLevel(s: seq<Node>, n: nat, nodeId: string, choice: Option<string>)
    requires n > 0 && GetNodesForLevel(s, n - 1) != [] && Truthy(choice)
    ensures DropDecision(s, false, LevelList(n), nodeId, choice) == MoveCall(nodeId, n, choice)
  {
  }

  /**
   * The parent dialog offers every node of level N-1, including the dragged
   * node when it sits at level N-1: a drop one level down that picks the
   * dragged node itself makes it its own parent, and from then on the
   * descendant query recurses without bound.
   */
  lemma DropCanMakeNodeItsOwnParent(s: seq<Node>, n: nat, node: Node)
    requires n > 0 && node in AtLevel(s, n - 1) && node.id != ""
    ensures DropDecision(s, false, LevelList(n), node.id, Some(node.id)) ==
            MoveCall(node.id, n, Some(node.id))
    ensures !Acyclic(Apply(s, DropDecision(s, false, LevelList(n), node.id, Some(node.id))))
  {
    var s' := Moved(s, node.id, n, Some(node.id));
    var i :| 0 <= i < |s| && s[i] == node;
    assert s'[i] in s' && s'[i].id == node.id && s'[i].parentId == Some(node.id);
    forall rank: string -> nat ensures !Ranked(s', rank) {
      assert s'[i] in s';
    }
  }

  /** A concrete store in which the drop above happens: the seed's CEO dropped into level 1. */
  lemma SeedCeoBecomesItsOwnParent()
    ensures !Acyclic(Apply(Seed(), DropDecision(Seed(), false, LevelList(1), "1", Some("1"))))
  {
    var ceo := Seed()[0];
    assert ceo in AtLevel(Seed(), 0);
    DropCanMakeNodeItsOwnParent(Seed(), 1, ceo);
  }

  /**
   * The drop as intended: a parent inside the dragged node's own subtree (the
   * node itself or one of its descendants) is refused like a cancelled dialog.
   */
  function DropDecisionChecked(s: seq<Node>, sameContainer: bool, target: DropTarget,
                               nodeId: string, choice: Option<string>): (r: StoreCall)
    requires Acyclic(s)
    ensures r.MoveCall? && r.parent.Some? ==>
              r.parent.value != nodeId && r.parent.value !in Descendants(s, nodeId)
    ensures var call := DropDecision(s, sameContainer, target, nodeId, choice);
      (call.MoveCall? && call.parent.Some? ==>
         call.parent.value != nodeId && call.parent.value !in Descendants(s, nodeId)) ==> r == call
    ensures r == NoCall || r == DropDecision(s, sameContainer, target, nodeId, choice)
  {
    var call := DropDecision(s, sameContainer, target, nodeId, choice);
    if call.MoveCall? && call.parent.Some? &&
       (call.parent.value == nodeId || call.parent.value in Descendants(s, nodeId))
    then NoCall
    else call
  }

  /** The checked drop keeps the parent relation acyclic. */
  lemma DropDecisionCheckedKeepsAcyclic(s: seq<Node>, sameContainer: bool, target: DropTarget,
                                        nodeId: string, choice: Option<string>)
    requires Acyclic(s)
    ensures Acyclic(Apply(s, DropDecisionChecked(s, sameContainer, target, nodeId, choice)))
  {
    var call := DropDecisionChecked(s, sameContainer, target, nodeId, choice);
    if call.MoveCall? {
      MovedKeepsAcyclic(s, call.id, call.level, call.parent);
    }
  }

  // ---------------------------------------------------------------------------
  // The component's state

  /** `[0, 1, ..., n - 1]`. */
  function Range(n: nat): (r: seq<int>)
    ensures |r| == n && forall i :: 0 <= i < n ==> r[i] == i
  {
    seq(n, i => i)
  }

  class App {
    const store: Store
    var isEditMode: bool
    var levels: seq<int>
    var connectors: seq<Path>

    /** The visible levels are 0 to n-1 and the store's parent relation is acyclic. */
    ghost predicate Valid()
      reads this, store
    {
      levels == Range(|levels|) && Acyclic(store.nodes)
    }

    constructor (store: Store)
      requires Acyclic(store.nodes)
      ensures this.store == store && Valid()
      ensures !isEditMode && levels == [0, 1, 2, 3] && connectors == []
    {
      this.store := store;
      isEditMode := false;
      levels := [0, 1, 2, 3];
      connectors := [];
      new;
      assert levels == Range(4);
    }

    method ToggleEditMode()
      modifies this`isEditMode
      ensures isEditMode == !old(isEditMode)
    {
      isEditMode := !isEditMode;
    }

    method OnSave()
      modifies this`isEditMode
      ensures !isEditMode
    {
      isEditMode := false;
    }

    method AddLevel()
      requires levels == Range(|levels|)
      modifies this`levels
      ensures old(Valid()) ==> Valid()
      ensures levels == old(levels) + [|old(levels)|] && levels == Range(|old(levels)| + 1)
    {
      levels := levels + [|levels|];
    }

    /** A drop between two lists: the checked store call, applied. */
    method Drop(sameContainer: bool, target: DropTarget, nodeId: string, choice: Option<string>)
      requires Valid()
      modifies store
      ensures Valid()
      ensures store.nodes ==
              Apply(old(store.nodes), DropDecisionChecked(old(store.nodes), sameContainer, target, nodeId, choice))
    {
      var call := DropDecisionChecked(store.nodes, sameContainer, target, nodeId, choice);
      DropDecisionCheckedKeepsAcyclic(store.nodes, sameContainer, target, nodeId, choice);
      if call.MoveCall? {
        store.MoveNode(call.id, call.level, call.parent);
      }
    }

    /**
     * Delete with cascade: `count` is the number of descendants the
     * confirmation message mentions; the store changes only when confirmed.
     */
    method DeleteNode(nodeId: string, confirmed: bool) returns (count: nat)
      requires Valid()
      modifies store
      ensures Valid()
      ensures count == |Descendants(old(store.nodes), nodeId)|
      ensures store.nodes == if confirmed then Pruned(old(store.nodes), nodeId) else old(store.nodes)
    {
      var descendants := store.GetDescendants(nodeId);
      count := |descendants|;
      if confirmed {
        FilterKeepsAcyclic(store.nodes, NotIn([nodeId] + descendants));
        store.RemoveNode(nodeId);
      }
    }

    /**
     * Redraw the connectors from the measured boxes: `container` is the
     * levels container's box (absent before the view exists), `rects` the
     * box of every rendered node, by id.
     */
    method CalculateConnectors(container: Option<Rect>, rects: map<string, Rect>)
      modifies this`connectors
      ensures container.None? ==> connectors == old(connectors)
      ensures container.Some? ==> connectors == Batch(store.nodes, container.value, rects)
    {
      if container.None? {
        return;
      }
      var containerRect := container.value;
      var newConnectors := [];
      var nodes := store.nodes;
      for i := 0 to |nodes|
        invariant newConnectors == Batch(nodes[..i], containerRect, rects)
      {
        var node := nodes[i];
        assert nodes[..i + 1][..i] == nodes[..i];
        if Truthy(node.parentId) {
          if node.parentId.value in rects && node.id in rects {
            var parentRect := rects[node.parentId.value];
            var childRect := rects[node.id];
            newConnectors := newConnectors + [Connector(parentRect, childRect, containerRect)];
          }
        }
      }
      assert nodes[..|nodes|] == nodes;
      connectors := newConnectors;
    }
  }

}

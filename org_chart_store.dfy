/**
 * The org-chart store: a flat, insertion-ordered sequence of position nodes,
 * the two views derived from it (nodes grouped by level, children grouped by
 * parent id), the three actions that replace it (add, move, remove with
 * cascade) and the recursive descendant query.
 *
 * The parent relation is a set of parent-id pointers inside the flat
 * sequence.  The descendant query follows them downwards without a visited
 * set, so it terminates only when the pointers are acyclic; `Acyclic` states
 * that as the existence of a rank on ids that strictly falls from parent to
 * child.
 */
module OrgChartStore {

  import opened Wrappers
  import opened PositionModel
  import opened Seqs

  // ---------------------------------------------------------------------------
  // Seed data

  predicate UniqueIds(s: seq<Node>) {
    forall i, j :: 0 <= i < j < |s| ==> s[i].id != s[j].id
  }

  /**
   * Levels are consistent: ids are unique and every parent id names a node
   * exactly one level above the child.
   */
  ghost predicate Layered(s: seq<Node>) {
    && UniqueIds(s)
    && forall i :: 0 <= i < |s| && s[i].parentId.Some? ==>
         exists j :: 0 <= j < |s| && s[j].id == s[i].parentId.value && s[j].levelIndex == s[i].levelIndex - 1
  }

  function SeedNode(id: string, name: string, nameThai: string, salaryType: SalaryType,
                    levelIndex: int, parentId: Option<string>, section: string): Node
  {
    Node(id, name, Some(nameThai), None, None, Some(section), salaryType, levelIndex, parentId)
  }

  /** The store's initial contents. */
  function Seed(): seq<Node> {
    [
      SeedNode("1", "CEO", "ประธานเจ้าหน้าที่บริหาร", Normal, 0, None, "Management"),
      SeedNode("2", "CTO", "ประธานเจ้าหน้าที่ฝ่ายเทคโนโลยี", Normal, 1, Some("1"), "Engineering"),
      SeedNode("3", "CFO", "ประธานเจ้าหน้าที่ฝ่ายการเงิน", Normal, 1, Some("1"), "Management"),
      SeedNode("4", "VP Engineering", "รองประธานฝ่ายวิศวกรรม", Normal, 2, Some("2"), "Engineering"),
      SeedNode("5", "Sales Manager", "ผู้จัดการฝ่ายขาย", Commission, 2, Some("3"), "Sales"),
      SeedNode("6", "Backend Lead", "หัวหน้าทีม Backend", Normal, 3, Some("4"), "Engineering"),
      SeedNode("7", "Frontend Lead", "หัวหน้าทีม Frontend", Normal, 3, Some("4"), "Engineering"),
      SeedNode("8", "Sales Executive", "เจ้าหน้าที่ฝ่ายขาย", Commission, -1, None, "Sales"),
      SeedNode("9", "Marketing Specialist", "ผู้เชี่ยวชาญด้านการตลาด", Normal, -1, None, "Operations")
    ]
  }

  lemma SeedUniqueIds()
    ensures UniqueIds(Seed())
  {
    var s, digits := Seed(), "123456789";
    assert forall i :: 0 <= i < |s| ==> s[i].id == [digits[i]];
  }

  /** In the seed, a node has no parent exactly when it is at the root level or in the pool. */
  lemma SeedRoots()
    ensures forall i :: 0 <= i < |Seed()| ==> (Seed()[i].parentId.None? <==> Seed()[i].levelIndex <= 0)
  {
  }

  /** The position in the seed of the parent of the node at position `i`. */
  function SeedParent(i: int): (j: nat)
    ensures j < 9
  {
    if i <= 2 then 0 else if i == 3 then 1 else if i == 4 then 2 else 3
  }

  /** The seed has unique ids and every parent id names a node one level up. */
  lemma SeedLayered()
    ensures Layered(Seed())
  {
    var s := Seed();
    SeedUniqueIds();
    forall i | 0 <= i < |s| && s[i].parentId.Some?
      ensures exists j :: 0 <= j < |s| && s[j].id == s[i].parentId.value && s[j].levelIndex == s[i].levelIndex - 1
    {
      var j := SeedParent(i);
      assert s[j].id == s[i].parentId.value && s[j].levelIndex == s[i].levelIndex - 1;
    }
  }

  // ---------------------------------------------------------------------------
  // Lookup by id (`Array.prototype.find`)

  /** The first node of `s` whose id is `id`, if any. */
  function FindById(s: seq<Node>, id: string): (r: Option<Node>)
    ensures r.None? <==> forall n :: n in s ==> n.id != id
    ensures r.Some? ==> exists i :: 0 <= i < |s| && s[i] == r.value && s[i].id == id &&
                                    forall j :: 0 <= j < i ==> s[j].id != id
  {
    if s == [] then None
    else if s[0].id == id then Some(s[0])
    else
      var r := FindById(s[1..], id);
      assert forall j :: 1 <= j < |s| ==> s[j] == s[1..][j - 1];
      r
  }

  // ---------------------------------------------------------------------------
  // The filters the store and its views use

  function IsAt(k: int): Node -> bool { (n: Node) => n.levelIndex == k }

  function HasParent(p: string): Node -> bool { (n: Node) => n.parentId == Some(p) }

  function NotIn(ids: seq<string>): Node -> bool { (n: Node) => n.id !in ids }

  /** The nodes at level `k`, in collection order. */
  function AtLevel(s: seq<Node>, k: int): seq<Node> { Filter(s, IsAt(k)) }

  /** The direct children of `p`: the nodes whose parent id is `p`, in collection order. */
  function ChildrenOf(s: seq<Node>, p: string): seq<Node> { Filter(s, HasParent(p)) }

  // ---------------------------------------------------------------------------
  // nodesByLevel

  function Levels(s: seq<Node>): set<int> {
    set n | n in s :: n.levelIndex
  }

  lemma LevelsSnoc(s: seq<Node>, x: Node)
    ensures Levels(s + [x]) == Levels(s) + {x.levelIndex}
  {
    assert forall n :: n in s + [x] <==> n in s || n == x;
  }

  /** Level index to the nodes at that level; only levels that occur are keys (including -1). */
  function ByLevel(s: seq<Node>): map<int, seq<Node>> {
    map k | k in Levels(s) :: AtLevel(s, k)
  }

  /** Appending a node appends it to its own level's bucket and changes no other bucket. */
  lemma ByLevelSnoc(s: seq<Node>, x: Node)
    ensures var m := ByLevel(s);
      ByLevel(s + [x]) ==
        m[x.levelIndex := (if x.levelIndex in m then m[x.levelIndex] else []) + [x]]
  {
    var m := ByLevel(s);
    var k0 := x.levelIndex;
    var lhs := ByLevel(s + [x]);
    var rhs := m[k0 := (if k0 in m then m[k0] else []) + [x]];
    LevelsSnoc(s, x);
    assert lhs.Keys == rhs.Keys;
    forall k | k in lhs ensures lhs[k] == rhs[k] {
      AtLevelSnoc(s, x, k);
    }
  }

  /** The bucket of level `k` after appending `x`. */
  lemma AtLevelSnoc(s: seq<Node>, x: Node, k: int)
    ensures AtLevel(s + [x], k) ==
      if k != x.levelIndex then AtLevel(s, k)
      else if k in Levels(s) then AtLevel(s, k) + [x]
      else [x]
  {
    FilterSnoc(s, x, IsAt(k));
    if k == x.levelIndex && k !in Levels(s) {
      FilterNone(s, IsAt(k));
    }
  }

  /** One more node of the collection appended to its level's bucket. */
  lemma ByLevelPrefix(s: seq<Node>, i: int)
    requires 0 <= i < |s|
    ensures var m, k := ByLevel(s[..i]), s[i].levelIndex;
      ByLevel(s[..i + 1]) == m[k := (if k in m then m[k] else []) + [s[i]]]
  {
    assert s[..i + 1] == s[..i] + [s[i]];
    ByLevelSnoc(s[..i], s[i]);
  }

  /** Every node is in the bucket of its own level, and a bucket holds only nodes of its level. */
  lemma ByLevelPlacement(s: seq<Node>)
    ensures forall n :: n in s ==> n.levelIndex in ByLevel(s) && n in ByLevel(s)[n.levelIndex]
    ensures forall k, n :: k in ByLevel(s) && n in ByLevel(s)[k] ==> n in s && n.levelIndex == k
    ensures forall k :: k in ByLevel(s) ==> IsSubsequence(ByLevel(s)[k], s)
  {
    forall k | k in ByLevel(s) ensures IsSubsequence(ByLevel(s)[k], s) {
      FilterIsSubsequence(s, IsAt(k));
    }
  }

  predicate Distinct(ks: seq<int>) {
    forall i, j :: 0 <= i < j < |ks| ==> ks[i] != ks[j]
  }

  /** The levels of `s`, each once, in the order of their first occurrence. */
  function LevelOrder(s: seq<Node>): (ks: seq<int>)
    ensures Distinct(ks)
    ensures forall k :: k in ks <==> k in Levels(s)
  {
    if s == [] then []
    else
      var init := s[..|s| - 1];
      var k := s[|s| - 1].levelIndex;
      var ks := LevelOrder(init);
      assert s == init + [s[|s| - 1]];
      assert Levels(s) == Levels(init) + {k};
      if k in ks then ks else ks + [k]
  }

  /** The buckets of `m` for the keys `ks`, concatenated in that order. */
  function Flatten(m: map<int, seq<Node>>, ks: seq<int>): seq<Node>
    requires forall i :: 0 <= i < |ks| ==> ks[i] in m
  {
    if ks == [] then [] else m[ks[0]] + Flatten(m, ks[1..])
  }

  lemma {:induction false} FlattenSnoc(m: map<int, seq<Node>>, ks: seq<int>, k: int)
    requires forall i :: 0 <= i < |ks| ==> ks[i] in m
    requires k in m
    ensures Flatten(m, ks + [k]) == Flatten(m, ks) + m[k]
  {
    if ks == [] {
      assert ([k])[1..] == [];
    } else {
      assert (ks + [k])[1..] == ks[1..] + [k];
      FlattenSnoc(m, ks[1..], k);
    }
  }

  /** Flatten only looks at the buckets it is asked for. */
  lemma {:induction false} FlattenFrame(m: map<int, seq<Node>>, m': map<int, seq<Node>>, ks: seq<int>)
    requires forall i :: 0 <= i < |ks| ==> ks[i] in m && ks[i] in m' && m[ks[i]] == m'[ks[i]]
    ensures Flatten(m, ks) == Flatten(m', ks)
  {
    if ks != [] {
      FlattenFrame(m, m', ks[1..]);
    }
  }

  /** Growing one bucket by `x` grows the flattening by `x`, when the bucket's key occurs once. */
  lemma {:induction false} FlattenGrow(m: map<int, seq<Node>>, ks: seq<int>, k: int, x: Node)
    requires forall i :: 0 <= i < |ks| ==> ks[i] in m
    requires Distinct(ks) && k in ks
    ensures var m' := m[k := m[k] + [x]];
      multiset(Flatten(m', ks)) == multiset(Flatten(m, ks)) + multiset{x}
  {
    var m' := m[k := m[k] + [x]];
    assert Distinct(ks[1..]) by {
      forall i, j | 0 <= i < j < |ks[1..]| ensures ks[1..][i] != ks[1..][j] {
        assert ks[1..][i] == ks[i + 1] && ks[1..][j] == ks[j + 1];
      }
    }
    if ks[0] == k {
      assert k !in ks[1..] by {
        forall i | 0 <= i < |ks[1..]| ensures ks[1..][i] != k {
          assert ks[1..][i] == ks[i + 1];
        }
      }
      FlattenFrame(m, m', ks[1..]);
    } else {
      FlattenGrow(m, ks[1..], k, x);
    }
  }

  /**
   * The buckets together hold the collection: concatenated in the order in
   * which their levels first occur, they are a permutation of `s`.
   */
  lemma {:induction false} ByLevelPartition(s: seq<Node>)
    ensures multiset(Flatten(ByLevel(s), LevelOrder(s))) == multiset(s)
  {
    if s != [] {
      var init := s[..|s| - 1];
      var x := s[|s| - 1];
      assert s == init + [x];
      ByLevelPartition(init);
      ByLevelPartitionStep(init, x);
    }
  }

  lemma ByLevelPartitionStep(s: seq<Node>, x: Node)
    ensures multiset(Flatten(ByLevel(s + [x]), LevelOrder(s + [x]))) ==
            multiset(Flatten(ByLevel(s), LevelOrder(s))) + multiset{x}
  {
    if x.levelIndex in Levels(s) {
      PartitionGrowBucket(s, x);
    } else {
      PartitionNewBucket(s, x);
    }
  }

  /** A node of a level that already occurs joins that level's bucket. */
  lemma PartitionGrowBucket(s: seq<Node>, x: Node)
    requires x.levelIndex in Levels(s)
    ensures multiset(Flatten(ByLevel(s + [x]), LevelOrder(s + [x]))) ==
            multiset(Flatten(ByLevel(s), LevelOrder(s))) + multiset{x}
  {
    var m, ks, k := ByLevel(s), LevelOrder(s), x.levelIndex;
    assert (s + [x])[..|s + [x]| - 1] == s;
    assert LevelOrder(s + [x]) == ks;
    ByLevelSnoc(s, x);
    assert ByLevel(s + [x]) == m[k := m[k] + [x]];
    FlattenGrow(m, ks, k, x);
  }

  /** A node of a new level opens a bucket of its own after all the others. */
  lemma PartitionNewBucket(s: seq<Node>, x: Node)
    requires x.levelIndex !in Levels(s)
    ensures multiset(Flatten(ByLevel(s + [x]), LevelOrder(s + [x]))) ==
            multiset(Flatten(ByLevel(s), LevelOrder(s))) + multiset{x}
  {
    var m, ks, k := ByLevel(s), LevelOrder(s), x.levelIndex;
    assert (s + [x])[..|s + [x]| - 1] == s;
    assert LevelOrder(s + [x]) == ks + [k];
    ByLevelSnoc(s, x);
    assert k !in m && [] + [x] == [x];
    var m' := m[k := [x]];
    assert ByLevel(s + [x]) == m';
    assert forall i :: 0 <= i < |ks| ==> ks[i] in m && ks[i] in m' && m[ks[i]] == m'[ks[i]];
    FlattenSnoc(m', ks, k);
    FlattenFrame(m, m', ks);
  }

  // ---------------------------------------------------------------------------
  // childrenByParent

  /** The truthy parent ids that occur: null and the empty string are skipped. */
  function Parents(s: seq<Node>): set<string> {
    set n | n in s && Truthy(n.parentId) :: n.parentId.value
  }

  lemma ParentsSnoc(s: seq<Node>, x: Node)
    ensures Parents(s + [x]) == Parents(s) + if Truthy(x.parentId) then {x.parentId.value} else {}
  {
    assert forall n :: n in s + [x] <==> n in s || n == x;
  }

  /** Parent id to its children, in collection order. */
  function ChildrenMap(s: seq<Node>): map<string, seq<Node>> {
    map p | p in Parents(s) :: ChildrenOf(s, p)
  }

  /**
   * `p` is a key exactly when some node has the truthy parent id `p`, and its
   * entry is the non-empty, in-order list of the nodes with that parent id.
   */
  lemma ChildrenMapEntries(s: seq<Node>)
    ensures forall p :: p in ChildrenMap(s) <==> p != "" && exists n :: n in s && n.parentId == Some(p)
    ensures forall p :: p in ChildrenMap(s) ==>
              ChildrenMap(s)[p] != [] && IsSubsequence(ChildrenMap(s)[p], s)
  {
    var m := ChildrenMap(s);
    forall p | p in m ensures m[p] != [] && IsSubsequence(m[p], s) {
      var n :| n in s && Truthy(n.parentId) && n.parentId.value == p;
      assert n in m[p];
      FilterIsSubsequence(s, HasParent(p));
    }
  }

  /** Appending a node with a truthy parent id appends it to that parent's entry only. */
  lemma ChildrenMapSnoc(s: seq<Node>, x: Node)
    ensures var m := ChildrenMap(s);
      ChildrenMap(s + [x]) ==
        if Truthy(x.parentId) then
          m[x.parentId.value := (if x.parentId.value in m then m[x.parentId.value] else []) + [x]]
        else m
  {
    if Truthy(x.parentId) {
      ChildrenMapSnocChild(s, x);
    } else {
      ChildrenMapSnocSkipped(s, x);
    }
  }

  /** One more node of the collection appended to its parent's entry, if its parent id is truthy. */
  lemma ChildrenMapPrefix(s: seq<Node>, i: int)
    requires 0 <= i < |s|
    ensures var m := ChildrenMap(s[..i]);
      ChildrenMap(s[..i + 1]) ==
        if Truthy(s[i].parentId) then
          m[s[i].parentId.value := (if s[i].parentId.value in m then m[s[i].parentId.value] else []) + [s[i]]]
        else m
  {
    assert s[..i + 1] == s[..i] + [s[i]];
    ChildrenMapSnoc(s[..i], s[i]);
  }

  lemma ChildrenMapSnocChild(s: seq<Node>, x: Node)
    requires Truthy(x.parentId)
    ensures var m, p := ChildrenMap(s), x.parentId.value;
      ChildrenMap(s + [x]) == m[p := (if p in m then m[p] else []) + [x]]
  {
    var m, p0 := ChildrenMap(s), x.parentId.value;
    var lhs := ChildrenMap(s + [x]);
    var rhs := m[p0 := (if p0 in m then m[p0] else []) + [x]];
    ParentsSnoc(s, x);
    assert lhs.Keys == rhs.Keys;
    forall p | p in lhs ensures lhs[p] == rhs[p] {
      assert p in Parents(s + [x]) && p != "";
      ChildrenOfSnoc(s, x, p);
      if p != p0 {
        assert p in m && m[p] == ChildrenOf(s, p);
      }
    }
  }

  /** The children of `p` after appending `x`. */
  lemma ChildrenOfSnoc(s: seq<Node>, x: Node, p: string)
    requires p != ""
    ensures ChildrenOf(s + [x], p) ==
      if x.parentId != Some(p) then ChildrenOf(s, p)
      else if p in Parents(s) then ChildrenOf(s, p) + [x]
      else [x]
  {
    FilterSnoc(s, x, HasParent(p));
    if x.parentId == Some(p) && p !in Parents(s) {
      assert forall i :: 0 <= i < |s| ==> s[i] in s && s[i].parentId != Some(p);
      FilterNone(s, HasParent(p));
    }
  }

  lemma ChildrenMapSnocSkipped(s: seq<Node>, x: Node)
    requires !Truthy(x.parentId)
    ensures ChildrenMap(s + [x]) == ChildrenMap(s)
  {
    var lhs := ChildrenMap(s + [x]);
    ParentsSnoc(s, x);
    forall p | p in lhs ensures lhs[p] == ChildrenMap(s)[p] {
      FilterSnoc(s, x, HasParent(p));
    }
  }

  // ---------------------------------------------------------------------------
  // moveNode

  function Relocated(n: Node, level: int, parent: Option<string>): Node {
    n.(levelIndex := level, parentId := parent)
  }

  /**
   * Every node whose id is `id` gets the new level and parent; every other
   * node, every other field and the order stay as they were.
   */
  function Moved(s: seq<Node>, id: string, level: int, parent: Option<string>): (r: seq<Node>)
    ensures |r| == |s|
    ensures forall i :: 0 <= i < |s| ==>
              r[i] == if s[i].id == id then Relocated(s[i], level, parent) else s[i]
  {
    if s == [] then []
    else [if s[0].id == id then Relocated(s[0], level, parent) else s[0]] + Moved(s[1..], id, level, parent)
  }

  /** Moving an id no node has changes nothing. */
  lemma MovedUnknownId(s: seq<Node>, id: string, level: int, parent: Option<string>)
    requires forall n :: n in s ==> n.id != id
    ensures Moved(s, id, level, parent) == s
  {
    var r := Moved(s, id, level, parent);
    assert forall i :: 0 <= i < |s| ==> r[i] == s[i];
  }

  /** Moving a second time to the same place changes nothing more. */
  lemma MovedIdempotent(s: seq<Node>, id: string, level: int, parent: Option<string>)
    ensures Moved(Moved(s, id, level, parent), id, level, parent) == Moved(s, id, level, parent)
  {
    var r := Moved(s, id, level, parent);
    var r2 := Moved(r, id, level, parent);
    assert forall i :: 0 <= i < |s| ==> r2[i] == r[i];
  }

  /**
   * After the move every node with the id has the new level and parent, and
   * every node with another id is still there, unchanged.
   */
  lemma MovedPlaces(s: seq<Node>, id: string, level: int, parent: Option<string>)
    ensures forall m :: m in Moved(s, id, level, parent) && m.id == id ==>
              m.levelIndex == level && m.parentId == parent
    ensures forall n :: n in s && n.id != id ==> n in Moved(s, id, level, parent)
  {
    var r := Moved(s, id, level, parent);
    forall m | m in r && m.id == id ensures m.levelIndex == level && m.parentId == parent {
      var j :| 0 <= j < |r| && r[j] == m;
    }
    forall n | n in s && n.id != id ensures n in r {
      var j :| 0 <= j < |s| && s[j] == n;
      assert r[j] == n;
    }
  }

  // ---------------------------------------------------------------------------
  // Acyclicity

  /** `rank` strictly falls along every parent pointer, from parent id to child id. */
  ghost predicate Ranked(s: seq<Node>, rank: string -> nat) {
    forall n :: n in s && n.parentId.Some? ==> rank(n.id) < rank(n.parentId.value)
  }

  /** Following parent ids upwards from any node never comes back to it. */
  ghost predicate Acyclic(s: seq<Node>) {
    exists rank :: Ranked(s, rank)
  }

  ghost function TheRank(s: seq<Node>): (rank: string -> nat)
    requires Acyclic(s)
    ensures Ranked(s, rank)
  {
    var rank :| Ranked(s, rank); rank
  }

  /** The highest level in `s`, or 0 when that is higher. */
  function MaxLevel(s: seq<Node>): (k: int)
    ensures k >= 0 && forall n :: n in s ==> n.levelIndex <= k
  {
    if s == [] then 0
    else
      var k := MaxLevel(s[1..]);
      if s[0].levelIndex > k then s[0].levelIndex else k
  }

  lemma FindByUniqueId(s: seq<Node>, n: Node)
    requires UniqueIds(s) && n in s
    ensures FindById(s, n.id) == Some(n)
  {
    var i :| 0 <= i < |s| && s[i] == n;
    var r := FindById(s, n.id);
    var j :| 0 <= j < |s| && s[j] == r.value && s[j].id == n.id &&
             forall l :: 0 <= l < j ==> s[l].id != n.id;
  }

  /**
   * Consistent levels make the parent relation acyclic: parents are always
   * one level shallower than their children.
   */
  lemma LayeredIsAcyclic(s: seq<Node>)
    requires Layered(s)
    ensures Acyclic(s)
  {
    var top := MaxLevel(s);
    var rank: string -> nat := y => LevelRank(s, top, y);
    forall n | n in s && n.parentId.Some? ensures rank(n.id) < rank(n.parentId.value) {
      var j :| 0 <= j < |s| && s[j].id == n.parentId.value && s[j].levelIndex == n.levelIndex - 1;
      LevelRankFalls(s, n, s[j]);
    }
    assert Ranked(s, rank);
  }

  lemma LevelRankFalls(s: seq<Node>, n: Node, m: Node)
    requires UniqueIds(s) && n in s && m in s && m.levelIndex == n.levelIndex - 1
    ensures LevelRank(s, MaxLevel(s), n.id) < LevelRank(s, MaxLevel(s), m.id)
  {
    FindByUniqueId(s, n);
    FindByUniqueId(s, m);
  }

  /** How far above the deepest level the first node with id `y` sits, counting from 1; 0 for an unknown id. */
  function LevelRank(s: seq<Node>, top: int, y: string): nat {
    match FindById(s, y)
    case Some(m) => if m.levelIndex <= top + 1 then top + 1 - m.levelIndex else 0
    case None => 0
  }

  lemma SeedAcyclic()
    ensures Acyclic(Seed())
  {
    SeedLayered();
    LayeredIsAcyclic(Seed());
  }

  // ---------------------------------------------------------------------------
  // getDescendants

  /**
   * The ids below `x`: for each direct child, in collection order, its id
   * followed by its own descendants.
   */
  function Descendants(s: seq<Node>, x: string): seq<string>
    requires Acyclic(s)
    decreases TheRank(s)(x), 1
  {
    DescendantsOfChildren(s, x, ChildrenOf(s, x))
  }

  function DescendantsOfChildren(s: seq<Node>, x: string, cs: seq<Node>): seq<string>
    requires Acyclic(s)
    requires forall c :: c in cs ==> c in s && c.parentId == Some(x)
    decreases TheRank(s)(x), 0, |cs|
  {
    if cs == [] then []
    else [cs[0].id] + Descendants(s, cs[0].id) + DescendantsOfChildren(s, x, cs[1..])
  }

  lemma {:induction false} DescendantsOfChildrenAppend(s: seq<Node>, x: string, a: seq<Node>, b: seq<Node>)
    requires Acyclic(s)
    requires forall c :: c in a + b ==> c in s && c.parentId == Some(x)
    ensures DescendantsOfChildren(s, x, a + b) ==
            DescendantsOfChildren(s, x, a) + DescendantsOfChildren(s, x, b)
  {
    if a == [] {
      assert a + b == b;
    } else {
      assert (a + b)[1..] == a[1..] + b;
      DescendantsOfChildrenAppend(s, x, a[1..], b);
    }
  }

  lemma ChildOutranked(s: seq<Node>, x: string, cs: seq<Node>, i: int)
    requires Acyclic(s)
    requires cs == ChildrenOf(s, x) && 0 <= i < |cs|
    ensures cs[i] in s && cs[i].parentId == Some(x)
    ensures TheRank(s)(cs[i].id) < TheRank(s)(x)
  {
    assert cs[i] in cs;
  }

  lemma DescendantsOfChildrenStep(s: seq<Node>, x: string, cs: seq<Node>, i: int)
    requires Acyclic(s)
    requires cs == ChildrenOf(s, x) && 0 <= i < |cs|
    ensures DescendantsOfChildren(s, x, cs[i..]) ==
            [cs[i].id] + Descendants(s, cs[i].id) + DescendantsOfChildren(s, x, cs[i + 1..])
  {
    assert cs[i..][1..] == cs[i + 1..];
  }

  /** One turn of the per-child loop: the child's id and its own descendants join the list. */
  lemma DescendantsLoopStep(s: seq<Node>, x: string, cs: seq<Node>, i: int, acc: seq<string>, below: seq<string>)
    requires Acyclic(s)
    requires cs == ChildrenOf(s, x) && 0 <= i < |cs|
    requires acc + DescendantsOfChildren(s, x, cs[i..]) == Descendants(s, x)
    requires below == Descendants(s, cs[i].id)
    ensures (acc + [cs[i].id] + below) + DescendantsOfChildren(s, x, cs[i + 1..]) == Descendants(s, x)
  {
    DescendantsOfChildrenStep(s, x, cs, i);
    SeqAssoc(acc, [cs[i].id] + below, DescendantsOfChildren(s, x, cs[i + 1..]));
  }

  lemma SeqAssoc<T>(a: seq<T>, b: seq<T>, c: seq<T>)
    ensures a + b + c == a + (b + c)
  {
  }

  /** A node without children has no descendants, and only such a node. */
  lemma DescendantsEmpty(s: seq<Node>, x: string)
    requires Acyclic(s)
    ensures Descendants(s, x) == [] <==> forall n :: n in s ==> n.parentId != Some(x)
  {
    var cs := ChildrenOf(s, x);
    if cs != [] {
      assert cs[0] in cs;
    }
  }

  /**
   * The descendants of `x` are, child by child in collection order, the
   * child's id followed by the child's descendants.
   */
  lemma DescendantsSplit(s: seq<Node>, x: string, i: int)
    requires Acyclic(s)
    requires 0 <= i < |ChildrenOf(s, x)|
    ensures var cs := ChildrenOf(s, x);
      Descendants(s, x) ==
        DescendantsOfChildren(s, x, cs[..i]) + [cs[i].id] + Descendants(s, cs[i].id) +
        DescendantsOfChildren(s, x, cs[i + 1..])
  {
    var cs := ChildrenOf(s, x);
    assert cs == cs[..i] + cs[i..];
    DescendantsOfChildrenAppend(s, x, cs[..i], cs[i..]);
    DescendantsOfChildrenStep(s, x, cs, i);
    var before, own, after :=
      DescendantsOfChildren(s, x, cs[..i]), [cs[i].id] + Descendants(s, cs[i].id),
      DescendantsOfChildren(s, x, cs[i + 1..]);
    SeqAssoc(before, [cs[i].id], Descendants(s, cs[i].id));
    SeqAssoc(before, own, after);
  }

  /** Each child's id and everything below it appear in the descendants of its parent. */
  lemma {:induction false} DescendantsOfChildrenContains(s: seq<Node>, x: string, cs: seq<Node>, c: Node)
    requires Acyclic(s)
    requires forall d :: d in cs ==> d in s && d.parentId == Some(x)
    requires c in cs
    ensures c.id in DescendantsOfChildren(s, x, cs)
    ensures forall z :: z in Descendants(s, c.id) ==> z in DescendantsOfChildren(s, x, cs)
  {
    if cs[0] != c {
      DescendantsOfChildrenContains(s, x, cs[1..], c);
    }
  }

  /** An id among the descendants is a child's id or below some child. */
  lemma {:induction false} DescendantsOfChildrenMember(s: seq<Node>, x: string, cs: seq<Node>, y: string)
    requires Acyclic(s)
    requires forall d :: d in cs ==> d in s && d.parentId == Some(x)
    requires y in DescendantsOfChildren(s, x, cs)
    ensures exists c :: c in cs && (y == c.id || y in Descendants(s, c.id))
  {
    if y != cs[0].id && y !in Descendants(s, cs[0].id) {
      DescendantsOfChildrenMember(s, x, cs[1..], y);
    }
  }

  lemma ChildInDescendants(s: seq<Node>, x: string, c: Node)
    requires Acyclic(s)
    requires c in s && c.parentId == Some(x)
    ensures c.id in Descendants(s, x)
    ensures forall z :: z in Descendants(s, c.id) ==> z in Descendants(s, x)
  {
    DescendantsOfChildrenContains(s, x, ChildrenOf(s, x), c);
  }

  /** Descendants are transitive: everything below a descendant is a descendant. */
  lemma {:induction false} DescendantsTransitive(s: seq<Node>, x: string, y: string)
    requires Acyclic(s)
    requires y in Descendants(s, x)
    ensures forall z :: z in Descendants(s, y) ==> z in Descendants(s, x)
    decreases TheRank(s)(x)
  {
    var cs := ChildrenOf(s, x);
    DescendantsOfChildrenMember(s, x, cs, y);
    var c :| c in cs && (y == c.id || y in Descendants(s, c.id));
    ChildInDescendants(s, x, c);
    if y != c.id {
      DescendantsTransitive(s, c.id, y);
    }
  }

  /** A grandchild of `x` is among the descendants of `x`. */
  lemma GrandchildInDescendants(s: seq<Node>, x: string, c: Node, g: Node)
    requires Acyclic(s)
    requires c in s && c.parentId == Some(x)
    requires g in s && g.parentId == Some(c.id)
    ensures c.id in Descendants(s, x) && g.id in Descendants(s, x)
  {
    ChildInDescendants(s, x, c);
    ChildInDescendants(s, c.id, g);
  }

  /** The child of anything in the subtree of `x` lies in the subtree too. */
  lemma SubtreeClosed(s: seq<Node>, x: string, n: Node)
    requires Acyclic(s)
    requires n in s && n.parentId.Some?
    requires n.parentId.value == x || n.parentId.value in Descendants(s, x)
    ensures n.id in Descendants(s, x)
  {
    var q := n.parentId.value;
    ChildInDescendants(s, q, n);
    if q != x {
      DescendantsTransitive(s, x, q);
    }
  }

  /** Every descendant is the id of a node whose parent is `x` or another descendant. */
  lemma {:induction false} DescendantsSound(s: seq<Node>, x: string, y: string)
    requires Acyclic(s)
    requires y in Descendants(s, x)
    ensures exists n :: n in s && n.id == y && n.parentId.Some? &&
                        (n.parentId.value == x || n.parentId.value in Descendants(s, x))
    decreases TheRank(s)(x)
  {
    var cs := ChildrenOf(s, x);
    DescendantsOfChildrenMember(s, x, cs, y);
    var c :| c in cs && (y == c.id || y in Descendants(s, c.id));
    if y != c.id {
      DescendantsSound(s, c.id, y);
      var n :| n in s && n.id == y && n.parentId.Some? &&
               (n.parentId.value == c.id || n.parentId.value in Descendants(s, c.id));
      ChildInDescendants(s, x, c);
    }
  }

  // ---------------------------------------------------------------------------
  // removeNode

  /** The collection without `x` and without every descendant of `x`. */
  function Pruned(s: seq<Node>, x: string): seq<Node>
    requires Acyclic(s)
  {
    Filter(s, NotIn([x] + Descendants(s, x)))
  }

  /**
   * Removal keeps exactly the nodes whose id is neither `x` nor a descendant
   * of `x`, each as often as before, in their original relative order.
   */
  lemma PrunedKeeps(s: seq<Node>, x: string)
    requires Acyclic(s)
    ensures forall n :: n in Pruned(s, x) <==> n in s && n.id != x && n.id !in Descendants(s, x)
    ensures forall n: Node :: n.id != x && n.id !in Descendants(s, x) ==>
              multiset(Pruned(s, x))[n] == multiset(s)[n]
    ensures IsSubsequence(Pruned(s, x), s)
  {
    var p := NotIn([x] + Descendants(s, x));
    forall n: Node | n.id != x && n.id !in Descendants(s, x)
      ensures multiset(Pruned(s, x))[n] == multiset(s)[n]
    {
      FilterCount(s, p, n);
    }
    FilterIsSubsequence(s, p);
  }

  /**
   * Removal leaves no node pointing into the removed subtree, even when no
   * node has the id `x` itself.
   */
  lemma PrunedLeavesNoOrphans(s: seq<Node>, x: string)
    requires Acyclic(s)
    ensures forall n :: n in Pruned(s, x) && n.parentId.Some? ==>
              n.parentId.value != x && n.parentId.value !in Descendants(s, x)
  {
    forall n | n in Pruned(s, x) && n.parentId.Some?
      ensures n.parentId.value != x && n.parentId.value !in Descendants(s, x)
    {
      if n.parentId.value == x || n.parentId.value in Descendants(s, x) {
        SubtreeClosed(s, x, n);
      }
    }
  }

  lemma FilterKeepsAcyclic(s: seq<Node>, p: Node -> bool)
    requires Acyclic(s)
    ensures Acyclic(Filter(s, p))
  {
    assert Ranked(Filter(s, p), TheRank(s));
  }

  // ---------------------------------------------------------------------------
  // Which actions keep the parent relation acyclic

  /** Adding a node under a fresh id keeps the relation acyclic. */
  lemma AddFreshKeepsAcyclic(s: seq<Node>, x: Node)
    requires Acyclic(s)
    requires forall n :: n in s ==> n.id != x.id && n.parentId != Some(x.id)
    requires x.parentId != Some(x.id)
    ensures Acyclic(s + [x])
  {
    var rank := TheRank(s);
    var rank': string -> nat := y => if y == x.id then 0 else rank(y) + 1;
    assert Ranked(s + [x], rank');
  }

  /**
   * Moving a node to the root, to the pool, or under a parent outside its own
   * subtree keeps the relation acyclic.
   */
  lemma MovedKeepsAcyclic(s: seq<Node>, id: string, level: int, parent: Option<string>)
    requires Acyclic(s)
    requires parent.Some? ==> parent.value != id && parent.value !in Descendants(s, id)
    ensures Acyclic(Moved(s, id, level, parent))
  {
    var rank := TheRank(s);
    var r := Moved(s, id, level, parent);
    var below := Descendants(s, id);
    var lift := rank(id) + 1;
    var rank': string -> nat := y => if y == id || y in below then rank(y) else rank(y) + lift;
    forall n | n in r && n.parentId.Some? ensures rank'(n.id) < rank'(n.parentId.value) {
      var i :| 0 <= i < |r| && r[i] == n;
      if s[i].id != id {
        assert n == s[i];
        var q := n.parentId.value;
        if q == id || q in below {
          SubtreeClosed(s, id, n);
        }
      }
    }
    assert Ranked(r, rank');
  }

  // ---------------------------------------------------------------------------
  // The store

  class Store {
    var nodes: seq<Node>

    constructor ()
      ensures nodes == Seed()
    {
      nodes := Seed();
    }

    method AddNode(node: Node)
      modifies this
      ensures nodes == old(nodes) + [node]
    {
      nodes := nodes + [node];
    }

    method MoveNode(id: string, newLevel: int, newParentId: Option<string>)
      modifies this
      ensures nodes == Moved(old(nodes), id, newLevel, newParentId)
    {
      nodes := Moved(nodes, id, newLevel, newParentId);
    }

    method GetDescendants(nodeId: string) returns (descendants: seq<string>)
      requires Acyclic(nodes)
      ensures descendants == Descendants(nodes, nodeId)
      decreases TheRank(nodes)(nodeId)
    {
      descendants := [];
      var children := ChildrenOf(nodes, nodeId);
      for i := 0 to |children|
        invariant descendants + DescendantsOfChildren(nodes, nodeId, children[i..]) ==
                  Descendants(nodes, nodeId)
      {
        var child := children[i];
        ChildOutranked(nodes, nodeId, children, i);
        var below := GetDescendants(child.id);
        DescendantsLoopStep(nodes, nodeId, children, i, descendants, below);
        descendants := descendants + [child.id] + below;
      }
    }

    method RemoveNode(nodeId: string)
      requires Acyclic(nodes)
      modifies this
      ensures nodes == Pruned(old(nodes), nodeId)
    {
      var descendants := GetDescendants(nodeId);
      var idsToRemove := [nodeId] + descendants;
      nodes := Filter(nodes, NotIn(idsToRemove));
    }

    method NodesByLevel() returns (grouped: map<int, seq<Node>>)
      ensures grouped == ByLevel(nodes)
    {
      grouped := map[];
      var ns := nodes;
      for i := 0 to |ns|
        invariant grouped == ByLevel(ns[..i])
      {
        var node := ns[i];
        ByLevelPrefix(ns, i);
        var bucket := if node.levelIndex in grouped then grouped[node.levelIndex] else [];
        grouped := grouped[node.levelIndex := bucket + [node]];
      }
      assert ns[..|ns|] == ns;
    }

    method ChildrenByParent() returns (children: map<string, seq<Node>>)
      ensures children == ChildrenMap(nodes)
    {
      children := map[];
      var ns := nodes;
      for i := 0 to |ns|
        invariant children == ChildrenMap(ns[..i])
      {
        var node := ns[i];
        ChildrenMapPrefix(ns, i);
        if Truthy(node.parentId) {
          var p := node.parentId.value;
          var entry := if p in children then children[p] else [];
          children := children[p := entry + [node]];
        }
      }
      assert ns[..|ns|] == ns;
    }
  }

}

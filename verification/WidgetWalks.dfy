/**
 The walks over a converted widget tree. A tree is an array of nodes in preorder,
 each with its number of children. One walk declares the tree to Clay and stores
 every element's id; others read boxes back, pick hits, look an id up and annotate
 a dump, each by computing the ids again on its way down. They stay together only
 while they all stop at the same index and compute the same ids.
 */
module WidgetWalks {
  import opened Options

  type Id = nat

  datatype Node = Node(children: nat, key: string, occurrence: nat, text: bool, client: bool, host: bool,
                       surface: bool, widget: bool, scroll: bool, floating: bool, passthrough: bool)

  /** Clay's two hashes: of a name at an offset under a seed, and of a child index under a parent. */
  datatype Hashes = Hashes(named: (string, nat, Id) -> Id, indexed: (nat, Id) -> Id)

  // --- preorder ---

  /** Where n consecutive subtrees that start at i end; past the array when they do not fit. */
  function Skip(d: seq<Node>, i: nat, n: nat): (end: nat)
    ensures end >= i && (end == i <==> n == 0)
    decreases |d| - i
  {
    if n == 0 then i
    else if i >= |d| then i + n
    else Skip(d, i + 1, n - 1 + d[i].children)
  }

  /** What the reader of a tree lets through: every count is met, a text has no
      children, a composite has some. */
  predicate WellFormed(d: seq<Node>) {
    && Skip(d, 0, 1) == |d|
    && forall i | 0 <= i < |d| :: (d[i].text ==> d[i].children == 0) && (d[i].client ==> d[i].children > 0)
  }

  predicate Fits(d: seq<Node>, i: nat, n: nat) { Skip(d, i, n) <= |d| }

  lemma {:induction false} SkipSplits(d: seq<Node>, i: nat, m: nat, n: nat)
    ensures Skip(d, i, m + n) == Skip(d, Skip(d, i, m), n)
    decreases |d| - i
  {
    if m > 0 {
      if i < |d| {
        SkipSplits(d, i + 1, m - 1 + d[i].children, n);
      } else if n > 0 {
        assert Skip(d, i + m, n) == i + m + n;
      }
    }
  }

  /** A node's subtree, and the siblings from one child on. */
  lemma ChildStart(d: seq<Node>, i: nat, k: nat)
    requires i < |d| && Fits(d, i, 1) && k < d[i].children
    ensures var c := Skip(d, i + 1, k);
            && i < c < |d| && Skip(d, c, d[i].children - k) == Skip(d, i, 1)
            && Skip(d, c, 1) == Skip(d, i + 1, k + 1) && Fits(d, c, 1) && Fits(d, Skip(d, c, 1), d[i].children - k - 1)
  {
    var c := Skip(d, i + 1, k);
    SkipSplits(d, i + 1, k, d[i].children - k);
    SkipSplits(d, i + 1, k, 1);
    SkipSplits(d, c, 1, d[i].children - k - 1);
  }

  /** Subtrees nest: one that starts inside a run of siblings ends inside it. */
  lemma {:induction false} SubtreesNest(d: seq<Node>, i: nat, n: nat, j: nat)
    requires i <= j < Skip(d, i, n) && Fits(d, i, n)
    ensures Skip(d, j, 1) <= Skip(d, i, n)
    decreases |d| - i
  {
    if i == j {
      SkipSplits(d, i, 1, n - 1);
    } else {
      SubtreesNest(d, i + 1, n - 1 + d[i].children, j);
    }
  }

  // --- ids ---

  datatype Tree = Tree(nodes: seq<Node>, fill: Option<Id>, hashes: Hashes)

  /** widget_child_id: of the child node n at index k under the element parent. */
  function ChildId(t: Tree, n: Node, parent: Id, k: nat): Id {
    if t.fill.Some? then t.fill.value
    else if n.occurrence != 0 then t.hashes.named(n.key, n.occurrence, 0)
    else if n.text then t.hashes.indexed(k, parent)
    else t.hashes.named(n.key, k, parent)
  }

  /** The id of node j, found among n sibling subtrees from i on, the first being
      child k of the parent. */
  function SiblingId(t: Tree, i: nat, n: nat, k: nat, parent: Id, j: nat): Id
    requires Fits(t.nodes, i, n) && i <= j < Skip(t.nodes, i, n)
    decreases |t.nodes| - i, n
  {
    var d := t.nodes;
    SkipSplits(d, i, 1, n - 1);
    if j == i then ChildId(t, d[i], parent, k)
    else if j < Skip(d, i, 1) then SiblingId(t, i + 1, d[i].children, 0, ChildId(t, d[i], parent, k), j)
    else SiblingId(t, Skip(d, i, 1), n - 1, k + 1, parent, j)
  }

  /** Every node's element id, down the path from the root element. */
  function IdOf(t: Tree, root: Id, j: nat): Id
    requires WellFormed(t.nodes) && j < |t.nodes|
  {
    if j == 0 then root else SiblingId(t, 1, t.nodes[0].children, 0, root, j)
  }

  /** The m-th of the siblings is child k + m of the parent. */
  lemma SiblingStart(d: seq<Node>, i: nat, n: nat, m: nat)
    requires Fits(d, i, n) && m < n
    ensures i <= Skip(d, i, m) < Skip(d, i, n) && Skip(d, i, m) < |d|
    ensures 0 < m ==>
              && Fits(d, Skip(d, i, 1), n - 1)
              && Skip(d, Skip(d, i, 1), m - 1) == Skip(d, i, m) && Skip(d, i, 1) <= Skip(d, i, m)
  {
    SkipSplits(d, i, 1, n - 1);
    SkipSplits(d, i, m, n - m);
    if m > 0 { SkipSplits(d, i, 1, m - 1); }
  }

  lemma {:induction false} SiblingHeads(t: Tree, i: nat, n: nat, k: nat, parent: Id, m: nat)
    requires Fits(t.nodes, i, n) && m < n
    ensures var c := Skip(t.nodes, i, m);
            && i <= c < Skip(t.nodes, i, n) && c < |t.nodes|
            && SiblingId(t, i, n, k, parent, c) == ChildId(t, t.nodes[c], parent, k + m)
    decreases n
  {
    SiblingStart(t.nodes, i, n, m);
    if m > 0 {
      SiblingHeads(t, Skip(t.nodes, i, 1), n - 1, k + 1, parent, m - 1);
    }
  }

  lemma GrandchildStart(d: seq<Node>, i: nat, n: nat, j: nat, m: nat)
    requires Fits(d, i, n) && i <= j < Skip(d, i, n) && m < d[j].children
    ensures Fits(d, j, 1) && j < Skip(d, j + 1, m) < Skip(d, j, 1) <= Skip(d, i, n)
  {
    SubtreesNest(d, i, n, j);
    ChildStart(d, j, m);
  }

  /** Inside the first sibling the id is found under that sibling. */
  lemma SiblingIdInside(t: Tree, i: nat, n: nat, k: nat, parent: Id, c: nat)
    requires Fits(t.nodes, i, n) && n > 0 && i < c < Skip(t.nodes, i, 1)
    ensures i < |t.nodes| && Fits(t.nodes, i + 1, t.nodes[i].children)
    ensures Skip(t.nodes, i, 1) == Skip(t.nodes, i + 1, t.nodes[i].children) <= Skip(t.nodes, i, n)
    ensures SiblingId(t, i, n, k, parent, c)
            == SiblingId(t, i + 1, t.nodes[i].children, 0, ChildId(t, t.nodes[i], parent, k), c)
  {
    SkipSplits(t.nodes, i, 1, n - 1);
  }

  lemma SiblingIdBeyond(t: Tree, i: nat, n: nat, k: nat, parent: Id, c: nat)
    requires Fits(t.nodes, i, n) && Skip(t.nodes, i, 1) <= c < Skip(t.nodes, i, n)
    ensures n > 0 && i < Skip(t.nodes, i, 1) <= |t.nodes|
            && Skip(t.nodes, Skip(t.nodes, i, 1), n - 1) == Skip(t.nodes, i, n)
    ensures SiblingId(t, i, n, k, parent, c) == SiblingId(t, Skip(t.nodes, i, 1), n - 1, k + 1, parent, c)
  {
    SkipSplits(t.nodes, i, 1, n - 1);
  }

  lemma SiblingIdsPass(t: Tree, i: nat, n: nat, k: nat, parent: Id, j: nat, m: nat)
    requires Fits(t.nodes, i, n) && i <= j < Skip(t.nodes, i, n) && m < t.nodes[j].children
    ensures var c := Skip(t.nodes, j + 1, m);
            && j < c < Skip(t.nodes, i, n)
            && SiblingId(t, i, n, k, parent, c) == ChildId(t, t.nodes[c], SiblingId(t, i, n, k, parent, j), m)
    decreases |t.nodes| - i, n
  {
    var c := Skip(t.nodes, j + 1, m);
    GrandchildStart(t.nodes, i, n, j, m);
    if j >= Skip(t.nodes, i, 1) {
      SiblingIdBeyond(t, i, n, k, parent, j);
      SiblingIdBeyond(t, i, n, k, parent, c);
      SiblingIdsPass(t, Skip(t.nodes, i, 1), n - 1, k + 1, parent, j, m);
    } else {
      SkipSplits(t.nodes, i, 1, n - 1);
      GrandchildStart(t.nodes, i, 1, j, m);
      SiblingIdInside(t, i, n, k, parent, c);
      var id := ChildId(t, t.nodes[i], parent, k);
      if j == i {
        SiblingHeads(t, i + 1, t.nodes[i].children, 0, id, m);
      } else {
        SiblingIdInside(t, i, n, k, parent, j);
        SiblingIdsPass(t, i + 1, t.nodes[i].children, 0, id, j, m);
      }
    }
  }

  /** What the declaration hands down is what every reading walk computes: a child's id
      comes from its parent's and its index. */
  lemma IdsPass(t: Tree, root: Id, i: nat, k: nat)
    requires WellFormed(t.nodes) && i < |t.nodes| && k < t.nodes[i].children
    ensures var c := Skip(t.nodes, i + 1, k);
            c < |t.nodes| && IdOf(t, root, c) == ChildId(t, t.nodes[c], IdOf(t, root, i), k)
    ensures var c := Skip(t.nodes, i + 1, k); var n := t.nodes[c];
            t.fill.None? ==>
              IdOf(t, root, c) == if n.occurrence != 0 then t.hashes.named(n.key, n.occurrence, 0)
                                  else if n.text then t.hashes.indexed(k, IdOf(t, root, i))
                                  else t.hashes.named(n.key, k, IdOf(t, root, i))
  {
    if i == 0 {
      SiblingHeads(t, 1, t.nodes[0].children, 0, root, k);
    } else {
      SiblingIdsPass(t, 1, t.nodes[0].children, 0, root, i, k);
    }
  }

  // --- distinct ids ---

  /** The hashes never collide, and give neither the root's id nor 0, the seed of the placement tokens. */
  ghost predicate Collisionless(h: Hashes, root: Id) {
    && root != 0
    && (forall a, m, p :: h.named(a, m, p) != 0 && h.named(a, m, p) != root)
    && (forall m, p :: h.indexed(m, p) != 0 && h.indexed(m, p) != root)
    && (forall a, m, p, b, n, q :: h.named(a, m, p) == h.named(b, n, q) ==> a == b && m == n && p == q)
    && (forall m, p, n, q :: h.indexed(m, p) == h.indexed(n, q) ==> m == n && p == q)
    && (forall a, m, p, n, q :: h.named(a, m, p) != h.indexed(n, q))
  }

  /** A name and a placement token belong to one node. */
  predicate TokensDiffer(d: seq<Node>) {
    forall i, j | 0 <= i < j < |d| && d[i].occurrence != 0 && d[j].occurrence != 0 ::
      d[i].key != d[j].key || d[i].occurrence != d[j].occurrence
  }

  /** A node of a run of siblings is one of them, its number being k, or the k-th child of the node p. */
  lemma {:induction false} ParentInRun(d: seq<Node>, i: nat, n: nat, j: nat) returns (sibling: bool, p: nat, k: nat)
    requires Fits(d, i, n) && i <= j < Skip(d, i, n)
    ensures sibling ==> k < n && Skip(d, i, k) == j
    ensures !sibling ==> i <= p < j < |d| && k < d[p].children && Skip(d, p + 1, k) == j
    decreases |d| - i, n
  {
    SkipSplits(d, i, 1, n - 1);
    if j == i {
      sibling, p, k := true, 0, 0;
    } else if j < Skip(d, i, 1) {
      sibling, p, k := ParentInRun(d, i + 1, d[i].children, j);
      if sibling { sibling, p := false, i; }
    } else {
      var next := Skip(d, i, 1);
      sibling, p, k := ParentInRun(d, next, n - 1, j);
      if sibling {
        SkipSplits(d, i, 1, k);
        k := k + 1;
      }
    }
  }

  /** Every node but the root is some child of some node before it, and has its id from there. */
  lemma ParentOf(t: Tree, root: Id, j: nat) returns (p: nat, k: nat)
    requires WellFormed(t.nodes) && 0 < j < |t.nodes|
    ensures p < j && k < t.nodes[p].children && Skip(t.nodes, p + 1, k) == j
    ensures IdOf(t, root, j) == ChildId(t, t.nodes[j], IdOf(t, root, p), k)
  {
    var sibling;
    sibling, p, k := ParentInRun(t.nodes, 1, t.nodes[0].children, j);
    if sibling { p := 0; }
    IdsPass(t, root, p, k);
  }

  lemma IdIsNotNull(t: Tree, root: Id, j: nat)
    requires WellFormed(t.nodes) && t.fill.None? && Collisionless(t.hashes, root) && j < |t.nodes|
    ensures IdOf(t, root, j) != 0
  {
    if j > 0 { var p, k := ParentOf(t, root, j); }
  }

  lemma ChildIdsDiffer(t: Tree, root: Id, a: Node, b: Node, p: Id, q: Id, k: nat, l: nat)
    requires t.fill.None? && Collisionless(t.hashes, root) && p != 0 && q != 0
    requires a.occurrence != 0 && b.occurrence != 0 ==> a.key != b.key || a.occurrence != b.occurrence
    requires ChildId(t, a, p, k) == ChildId(t, b, q, l)
    ensures p == q && k == l
  {
  }

  /** When the hashes do not collide, no two nodes of a tree share an element id: neither
      siblings of one name, nor children of different parents, nor a node and one inside it. */
  lemma {:induction false} IdsAreDistinct(t: Tree, root: Id, i: nat, j: nat)
    requires WellFormed(t.nodes) && t.fill.None? && Collisionless(t.hashes, root) && TokensDiffer(t.nodes)
    requires i < j < |t.nodes|
    ensures IdOf(t, root, i) != IdOf(t, root, j)
    decreases j
  {
    var p, k := ParentOf(t, root, j);
    if i > 0 && IdOf(t, root, i) == IdOf(t, root, j) {
      var q, l := ParentOf(t, root, i);
      IdIsNotNull(t, root, p);
      IdIsNotNull(t, root, q);
      ChildIdsDiffer(t, root, t.nodes[i], t.nodes[j], IdOf(t, root, q), IdOf(t, root, p), l, k);
      if p < q {
        IdsAreDistinct(t, root, p, q);
      } else if q < p {
        IdsAreDistinct(t, root, q, p);
      }
    }
  }

  /** A placed widget keeps its id wherever it stands, in this tree or another. */
  lemma TokenKeepsItsId(t: Tree, u: Tree, root: Id, uroot: Id, i: nat, j: nat)
    requires WellFormed(t.nodes) && WellFormed(u.nodes) && t.fill.None? && u.fill.None? && t.hashes == u.hashes
    requires 0 < i < |t.nodes| && 0 < j < |u.nodes| && t.nodes[i].occurrence != 0
    requires t.nodes[i].key == u.nodes[j].key && t.nodes[i].occurrence == u.nodes[j].occurrence
    ensures IdOf(t, root, i) == IdOf(u, uroot, j)
  {
    var p, k := ParentOf(t, root, i);
    var q, l := ParentOf(u, uroot, j);
  }

  /** A tree folded into the output's own element has one id throughout. */
  lemma {:induction false} FilledSiblings(t: Tree, i: nat, n: nat, k: nat, parent: Id, j: nat)
    requires Fits(t.nodes, i, n) && t.fill.Some? && i <= j < Skip(t.nodes, i, n)
    ensures SiblingId(t, i, n, k, parent, j) == t.fill.value
    decreases |t.nodes| - i, n
  {
    var d := t.nodes;
    SkipSplits(d, i, 1, n - 1);
    if i < j < Skip(d, i, 1) {
      FilledSiblings(t, i + 1, d[i].children, 0, t.fill.value, j);
    } else if j >= Skip(d, i, 1) {
      FilledSiblings(t, Skip(d, i, 1), n - 1, k + 1, parent, j);
    }
  }

  lemma FilledTreeIsOneElement(t: Tree, root: Id, j: nat)
    requires WellFormed(t.nodes) && t.fill == Some(root) && j < |t.nodes|
    ensures IdOf(t, root, j) == root
  {
    if j > 0 { FilledSiblings(t, 1, t.nodes[0].children, 0, root, j); }
  }

  // --- client composites ---

  /** The node is a client composite or belongs to one. */
  predicate InComposite(d: seq<Node>, j: nat) {
    exists i | 0 <= i <= j && i < |d| :: d[i].client && j < Skip(d, i, 1)
  }

  /** No node before i is a composite that reaches i. */
  predicate Outside(d: seq<Node>, i: nat) {
    forall a | 0 <= a < i && a < |d| :: d[a].client ==> Skip(d, a, 1) <= i
  }

  lemma OutsideChild(d: seq<Node>, i: nat, k: nat)
    requires i < |d| && Fits(d, i, 1) && k <= d[i].children && Outside(d, i) && !d[i].client
    ensures Outside(d, Skip(d, i + 1, k))
  {
    var c := Skip(d, i + 1, k);
    forall a | 0 <= a < c && a < |d| && d[a].client ensures Skip(d, a, 1) <= c {
      if a > i {
        SkipSplits(d, i + 1, k, d[i].children - k);
        SubtreesNest(d, i + 1, k, a);
      }
    }
  }

  lemma NotInComposite(d: seq<Node>, i: nat)
    requires i < |d| && Outside(d, i) && !d[i].client
    ensures !InComposite(d, i)
  {
  }

  // --- what the reading walks report ---

  /** The indices of [lo, hi) a predicate picks, in order. */
  function Select(lo: nat, hi: nat, pick: nat -> bool): (r: seq<nat>)
    requires lo <= hi
    ensures forall j :: j in r <==> lo <= j < hi && pick(j)
    ensures forall a | 0 <= a < |r| :: lo <= r[a] < hi
    ensures forall a, b | 0 <= a < b < |r| :: r[a] < r[b]
    decreases hi - lo
  {
    if lo == hi then []
    else
      var rest := Select(lo + 1, hi, pick);
      assert forall b | 0 <= b < |rest| :: rest[b] in rest;
      if pick(lo) then [lo] + rest else rest
  }

  lemma {:induction false} SelectSplits(lo: nat, mid: nat, hi: nat, pick: nat -> bool)
    requires lo <= mid <= hi
    ensures Select(lo, hi, pick) == Select(lo, mid, pick) + Select(mid, hi, pick)
    decreases mid - lo
  {
    if lo < mid { SelectSplits(lo + 1, mid, hi, pick); }
  }

  lemma SubtreeFits(d: seq<Node>, i: nat)
    requires WellFormed(d) && i < |d|
    ensures Fits(d, i, 1)
  {
    SubtreesNest(d, 0, 1, i);
  }

  /** In a composite a child may stop short of its own subtree's end; the next is then
      taken from inside it, and the walk still stays within the children passed so far. */
  lemma ShortOfChild(d: seq<Node>, i: nat, k: nat, next: nat)
    requires i < |d| && Fits(d, i, 1) && k < d[i].children && i < next <= Skip(d, i + 1, k)
    ensures next < |d| && Fits(d, next, 1) && Skip(d, next, 1) <= Skip(d, i + 1, k + 1) <= Skip(d, i, 1)
  {
    ChildStart(d, i, k);
    SkipSplits(d, i + 1, k + 1, d[i].children - k - 1);
    if next < Skip(d, i + 1, k) {
      SkipSplits(d, i + 1, k, d[i].children - k);
      SubtreesNest(d, i + 1, k, next);
    }
  }

  /** A reported node: the id its box was read under, and the stored one it is reported
      under when the caller asked for ids. */
  datatype Published = Published(index: nat, asked: Id, stored: Option<Id>)

  predicate Publishes(t: Tree, root: Id, found: Id -> bool, withIds: bool, j: nat)
    requires WellFormed(t.nodes)
  {
    j < |t.nodes| && !InComposite(t.nodes, j) && !t.nodes[j].text && found(IdOf(t, root, j))
    && (t.nodes[j].widget || (withIds && t.nodes[j].scroll))
  }

  function PublishedAt(t: Tree, root: Id, withIds: bool, j: nat): Published
    requires WellFormed(t.nodes) && j < |t.nodes|
  {
    Published(j, IdOf(t, root, j), if withIds then Some(IdOf(t, root, j)) else None)
  }

  /** What a readback of the nodes in [lo, hi) reports: in preorder, each published node
      once, read under its own id and reported under it. */
  function Boxes(t: Tree, root: Id, found: Id -> bool, withIds: bool, lo: nat, hi: nat): (r: seq<Published>)
    requires WellFormed(t.nodes) && lo <= hi <= |t.nodes|
    ensures forall a | 0 <= a < |r| :: lo <= r[a].index < hi && Publishes(t, root, found, withIds, r[a].index)
    ensures forall a | 0 <= a < |r| :: r[a].asked == IdOf(t, root, r[a].index)
    ensures forall a | 0 <= a < |r| :: r[a].stored == if withIds then Some(r[a].asked) else None
    decreases hi - lo
  {
    if lo == hi then []
    else
      var rest := Boxes(t, root, found, withIds, lo + 1, hi);
      if Publishes(t, root, found, withIds, lo) then [PublishedAt(t, root, withIds, lo)] + rest else rest
  }

  lemma {:induction false} BoxesSplit(t: Tree, root: Id, found: Id -> bool, withIds: bool, lo: nat, mid: nat, hi: nat)
    requires WellFormed(t.nodes) && lo <= mid <= hi <= |t.nodes|
    ensures Boxes(t, root, found, withIds, lo, hi)
            == Boxes(t, root, found, withIds, lo, mid) + Boxes(t, root, found, withIds, mid, hi)
    decreases mid - lo
  {
    if lo < mid { BoxesSplit(t, root, found, withIds, lo + 1, mid, hi); }
  }

  /** A readback that went on from mid to hi reports what one over the whole range would. */
  lemma {:induction false} BoxesGoOn(t: Tree, root: Id, found: Id -> bool, withIds: bool,
                                     lo: nat, mid: nat, hi: nat, out: seq<Published>)
    requires WellFormed(t.nodes) && lo <= mid <= hi <= |t.nodes|
    ensures (out + Boxes(t, root, found, withIds, lo, mid)) + Boxes(t, root, found, withIds, mid, hi)
            == out + Boxes(t, root, found, withIds, lo, hi)
  {
    BoxesSplit(t, root, found, withIds, lo, mid, hi);
  }

  /** Every published node is reported. */
  lemma {:induction false} BoxesMissNothing(t: Tree, root: Id, found: Id -> bool, withIds: bool, lo: nat, hi: nat,
                                            j: nat)
    requires WellFormed(t.nodes) && lo <= j < hi <= |t.nodes| && Publishes(t, root, found, withIds, j)
    ensures PublishedAt(t, root, withIds, j) in Boxes(t, root, found, withIds, lo, hi)
    decreases hi - lo
  {
    if lo < j { BoxesMissNothing(t, root, found, withIds, lo + 1, hi, j); }
  }

  /** The nodes of [lo, hi) a hit query answers, in preorder. */
  function HitsIn(t: Tree, root: Id, over: Id -> bool, rejects: Id -> bool, lo: nat, hi: nat): (r: seq<nat>)
    requires WellFormed(t.nodes) && lo <= hi
    ensures forall j :: j in r <==> lo <= j < hi && Hits(t, root, over, rejects, j)
  {
    Select(lo, hi, HitOf(t, root, over, rejects))
  }

  lemma HitsGoOn(t: Tree, root: Id, over: Id -> bool, rejects: Id -> bool, lo: nat, mid: nat, hi: nat,
                 cap: nat, out: seq<nat>)
    requires WellFormed(t.nodes) && lo <= mid <= hi
    ensures Capped(cap, Capped(cap, out + HitsIn(t, root, over, rejects, lo, mid))
                        + HitsIn(t, root, over, rejects, mid, hi))
            == Capped(cap, out + HitsIn(t, root, over, rejects, lo, hi))
  {
    SelectSplits(lo, mid, hi, HitOf(t, root, over, rejects));
    var a, b := HitsIn(t, root, over, rejects, lo, mid), HitsIn(t, root, over, rejects, mid, hi);
    assert out + HitsIn(t, root, over, rejects, lo, hi) == (out + a) + b;
  }

  /** What a hit query has found: the nodes, up to its limit, and whether a capturing float was hit. */
  datatype Found = Found(hits: seq<nat>, captured: bool)

  /** What it has found after the nodes of [lo, hi) too. */
  function FoundIn(t: Tree, root: Id, over: Id -> bool, rejects: Id -> bool, lo: nat, hi: nat, cap: nat,
                   f: Found): (r: Found)
    requires WellFormed(t.nodes) && lo <= hi
    ensures |r.hits| <= cap
  {
    Found(Capped(cap, f.hits + HitsIn(t, root, over, rejects, lo, hi)), f.captured || CapturedIn(t, root, over, lo, hi))
  }

  lemma FoundGoesOn(t: Tree, root: Id, over: Id -> bool, rejects: Id -> bool, lo: nat, mid: nat, hi: nat,
                    cap: nat, f: Found)
    requires WellFormed(t.nodes) && lo <= mid <= hi
    ensures FoundIn(t, root, over, rejects, mid, hi, cap, FoundIn(t, root, over, rejects, lo, mid, cap, f))
            == FoundIn(t, root, over, rejects, lo, hi, cap, f)
  {
    HitsGoOn(t, root, over, rejects, lo, mid, hi, cap, f.hits);
    CapturesGoOn(t, root, over, lo, mid, hi);
  }

  lemma MaskedHere(t: Tree, root: Id, rejects: Id -> bool, i: nat)
    requires WellFormed(t.nodes) && i < |t.nodes|
    ensures Masked(t, root, rejects, i) <==> MaskedAbove(t, root, rejects, i) || rejects(IdOf(t, root, i))
  {
    if rejects(IdOf(t, root, i)) { assert i < Skip(t.nodes, i, 1); }
  }

  lemma CapturesGoOn(t: Tree, root: Id, over: Id -> bool, lo: nat, mid: nat, hi: nat)
    requires WellFormed(t.nodes) && lo <= mid <= hi
    ensures CapturedIn(t, root, over, lo, hi)
            <==> CapturedIn(t, root, over, lo, mid) || CapturedIn(t, root, over, mid, hi)
  {
    if CapturedIn(t, root, over, lo, hi) {
      var j :| lo <= j < hi && Captures(t, root, over, j);
      assert j < mid || mid <= j;
    }
  }

  lemma {:induction false} NothingPublished(t: Tree, root: Id, found: Id -> bool, withIds: bool, i: nat, lo: nat)
    requires WellFormed(t.nodes) && i < |t.nodes| && t.nodes[i].client && i <= lo <= Skip(t.nodes, i, 1) <= |t.nodes|
    ensures Boxes(t, root, found, withIds, lo, Skip(t.nodes, i, 1)) == []
    decreases Skip(t.nodes, i, 1) - lo
  {
    if lo < Skip(t.nodes, i, 1) {
      assert InComposite(t.nodes, lo);
      NothingPublished(t, root, found, withIds, i, lo + 1);
    }
  }

  lemma {:induction false} SelectOne(i: nat, pick: nat -> bool)
    ensures Select(i, i + 1, pick) == if pick(i) then [i] else []
  {
    assert Select(i + 1, i + 1, pick) == [];
  }

  /** The node or something around it in the tree rejects the point. */
  predicate Masked(t: Tree, root: Id, rejects: Id -> bool, j: nat)
    requires WellFormed(t.nodes) && j < |t.nodes|
  {
    exists a | 0 <= a <= j :: j < Skip(t.nodes, a, 1) && rejects(IdOf(t, root, a))
  }

  predicate MaskedAbove(t: Tree, root: Id, rejects: Id -> bool, j: nat)
    requires WellFormed(t.nodes) && j < |t.nodes|
  {
    exists a | 0 <= a < j :: j < Skip(t.nodes, a, 1) && rejects(IdOf(t, root, a))
  }

  /** What is around a child is what is around its parent, and the parent. */
  lemma AroundChild(d: seq<Node>, i: nat, k: nat, a: nat)
    requires WellFormed(d) && i < |d| && k < d[i].children
    ensures var c := Skip(d, i + 1, k);
            i < c < |d| && ((a < c && c < Skip(d, a, 1)) <==> (a <= i && i < Skip(d, a, 1)))
  {
    SubtreeFits(d, i);
    ChildStart(d, i, k);
    var c := Skip(d, i + 1, k);
    if a <= i && i < Skip(d, a, 1) {
      SubtreeFits(d, a);
      SubtreesNest(d, a, 1, i);
    } else if i < a < c {
      SkipSplits(d, i + 1, k, d[i].children - k);
      SubtreesNest(d, i + 1, k, a);
    }
  }

  lemma MaskPasses(t: Tree, root: Id, rejects: Id -> bool, i: nat, k: nat)
    requires WellFormed(t.nodes) && i < |t.nodes| && k < t.nodes[i].children
    ensures var c := Skip(t.nodes, i + 1, k);
            c < |t.nodes| && (MaskedAbove(t, root, rejects, c) <==> Masked(t, root, rejects, i))
  {
    var c := Skip(t.nodes, i + 1, k);
    AroundChild(t.nodes, i, k, 0);
    if Masked(t, root, rejects, i) {
      var a :| 0 <= a <= i && i < Skip(t.nodes, a, 1) && rejects(IdOf(t, root, a));
      AroundChild(t.nodes, i, k, a);
    }
    if MaskedAbove(t, root, rejects, c) {
      var a :| 0 <= a < c && c < Skip(t.nodes, a, 1) && rejects(IdOf(t, root, a));
      AroundChild(t.nodes, i, k, a);
    }
  }

  predicate Hits(t: Tree, root: Id, over: Id -> bool, rejects: Id -> bool, j: nat)
    requires WellFormed(t.nodes)
  {
    j < |t.nodes| && over(IdOf(t, root, j)) && t.nodes[j].widget && !Masked(t, root, rejects, j)
  }

  function HitOf(t: Tree, root: Id, over: Id -> bool, rejects: Id -> bool): nat -> bool
    requires WellFormed(t.nodes)
  {
    (j: nat) => Hits(t, root, over, rejects, j)
  }

  predicate Captures(t: Tree, root: Id, over: Id -> bool, j: nat)
    requires WellFormed(t.nodes)
  {
    j < |t.nodes| && over(IdOf(t, root, j)) && t.nodes[j].floating && !t.nodes[j].passthrough
  }

  predicate CapturedIn(t: Tree, root: Id, over: Id -> bool, lo: nat, hi: nat)
    requires WellFormed(t.nodes)
  {
    exists j | lo <= j < hi :: Captures(t, root, over, j)
  }

  function Reported(r: seq<Published>): (js: seq<nat>)
    ensures |js| == |r| && forall a | 0 <= a < |r| :: js[a] == r[a].index
  {
    seq(|r|, a requires 0 <= a < |r| => r[a].index)
  }

  lemma ReportedCons(p: Published, rest: seq<Published>)
    ensures Reported([p] + rest) == [p.index] + Reported(rest)
  {
  }

  function PublishOf(t: Tree, root: Id, found: Id -> bool, withIds: bool): nat -> bool
    requires WellFormed(t.nodes)
  {
    (j: nat) => Publishes(t, root, found, withIds, j)
  }

  lemma {:induction false} BoxesAreSelected(t: Tree, root: Id, found: Id -> bool, withIds: bool, lo: nat, hi: nat)
    requires WellFormed(t.nodes) && lo <= hi <= |t.nodes|
    ensures Reported(Boxes(t, root, found, withIds, lo, hi)) == Select(lo, hi, PublishOf(t, root, found, withIds))
    decreases hi - lo
  {
    if lo < hi {
      BoxesAreSelected(t, root, found, withIds, lo + 1, hi);
      if Publishes(t, root, found, withIds, lo) {
        ReportedCons(PublishedAt(t, root, withIds, lo), Boxes(t, root, found, withIds, lo + 1, hi));
      }
    }
  }

  /** A readback reports, in preorder and once each, what lies outside composites, is no text
      and was found by Clay: the widgets, and scroll nodes when the caller takes ids. */
  lemma BoxesExact(t: Tree, root: Id, found: Id -> bool, withIds: bool)
    requires WellFormed(t.nodes)
    ensures var js := Reported(Boxes(t, root, found, withIds, 0, |t.nodes|));
            && (forall a, b | 0 <= a < b < |js| :: js[a] < js[b])
            && forall j: nat :: j in js <==>
                 && j < |t.nodes| && !InComposite(t.nodes, j) && !t.nodes[j].text && found(IdOf(t, root, j))
                 && (t.nodes[j].widget || (withIds && t.nodes[j].scroll))
  {
    BoxesAreSelected(t, root, found, withIds, 0, |t.nodes|);
    var pick := PublishOf(t, root, found, withIds);
    assert forall j: nat :: pick(j) == Publishes(t, root, found, withIds, j);
  }

  /** A node is hit when the point is over it, it is a widget, and neither it nor anything
      around it rejects the point. */
  lemma HitsMeans(t: Tree, root: Id, over: Id -> bool, rejects: Id -> bool, j: nat)
    requires WellFormed(t.nodes)
    ensures Hits(t, root, over, rejects, j) <==>
              && j < |t.nodes| && over(IdOf(t, root, j)) && t.nodes[j].widget
              && forall a | 0 <= a <= j && j < Skip(t.nodes, a, 1) :: !rejects(IdOf(t, root, a))
  {
  }

  /** A capturing float under the point. */
  lemma CapturedMeans(t: Tree, root: Id, over: Id -> bool)
    requires WellFormed(t.nodes)
    ensures CapturedIn(t, root, over, 0, |t.nodes|) <==>
              exists j | 0 <= j < |t.nodes| ::
                over(IdOf(t, root, j)) && t.nodes[j].floating && !t.nodes[j].passthrough
  {
    if CapturedIn(t, root, over, 0, |t.nodes|) {
      var j :| 0 <= j < |t.nodes| && Captures(t, root, over, j);
      assert over(IdOf(t, root, j)) && t.nodes[j].floating && !t.nodes[j].passthrough;
    }
    if j :| 0 <= j < |t.nodes| && over(IdOf(t, root, j)) && t.nodes[j].floating && !t.nodes[j].passthrough {
      assert Captures(t, root, over, j);
    }
  }

  /** These are hits, in preorder; those that are missing come behind, when there was no room. */
  ghost predicate FirstHits(t: Tree, root: Id, over: Id -> bool, rejects: Id -> bool, cap: nat, r: seq<nat>)
    requires WellFormed(t.nodes)
  {
    && |r| <= cap && (forall a, b | 0 <= a < b < |r| :: r[a] < r[b])
    && (forall j: nat | j in r :: Hits(t, root, over, rejects, j))
    && forall j: nat | Hits(t, root, over, rejects, j) :: j in r || (|r| == cap && forall b | 0 <= b < cap :: r[b] < j)
  }

  lemma HitsExact(t: Tree, root: Id, over: Id -> bool, rejects: Id -> bool, cap: nat)
    requires WellFormed(t.nodes)
    ensures FirstHits(t, root, over, rejects, cap, Capped(cap, HitsIn(t, root, over, rejects, 0, |t.nodes|)))
  {
    var all := HitsIn(t, root, over, rejects, 0, |t.nodes|);
    var r := Capped(cap, all);
    assert all == Select(0, |t.nodes|, HitOf(t, root, over, rejects));
    forall j: nat | Hits(t, root, over, rejects, j) && j !in r
      ensures |r| == cap && forall b | 0 <= b < cap :: r[b] < j
    {
      var k :| 0 <= k < |all| && all[k] == j;
      assert forall b | 0 <= b < |r| :: r[b] == all[b];
      assert k >= |r|;
    }
  }

  function Capped<T>(cap: nat, s: seq<T>): seq<T> {
    if |s| <= cap then s else s[..cap]
  }

  /** A converted tree as the walks see it: its nodes, and the ids the declaration stores. */
  class Walker {
    const tree: Tree
    const root: Id
    const ids: array<Id>

    predicate Valid() {
      WellFormed(tree.nodes) && ids.Length == |tree.nodes|
    }

    constructor (tree: Tree, root: Id)
      requires WellFormed(tree.nodes)
      ensures Valid() && this.tree == tree && this.root == root && fresh(ids)
    {
      this.tree, this.root, ids := tree, root, new Id[|tree.nodes|];
    }

    method SubtreeEnd(i: nat) returns (next: nat)
      requires Valid() && i < |tree.nodes|
      ensures next == Skip(tree.nodes, i, 1) <= |tree.nodes|
      decreases |tree.nodes| - i
    {
      SubtreeFits(tree.nodes, i);
      next := i + 1;
      for k := 0 to tree.nodes[i].children
        invariant next == Skip(tree.nodes, i + 1, k)
      {
        ChildStart(tree.nodes, i, k);
        next := SubtreeEnd(next);
      }
    }

    // --- the declaration ---

    /** A node of a composite, stored under its name and client. A surface leaf takes no
        children whatever the tree says. */
    method DeclareComposite(i: nat, named: nat -> Id) returns (next: nat)
      requires Valid() && i < |tree.nodes|
      modifies ids
      ensures i < next <= Skip(tree.nodes, i, 1) <= |tree.nodes|
      ensures tree.nodes[i].host ==> next == Skip(tree.nodes, i, 1)
      ensures !tree.nodes[i].host && tree.nodes[i].surface ==> next == i + 1
      ensures ids[i] == named(i) && forall j | 0 <= j < ids.Length :: ids[j] == old(ids[j]) || ids[j] == named(j)
      ensures forall j | 0 <= j < ids.Length && !(i <= j < Skip(tree.nodes, i, 1)) :: ids[j] == old(ids[j])
      decreases |tree.nodes| - i
    {
      SubtreeFits(tree.nodes, i);
      ids[i] := named(i);
      if tree.nodes[i].host {
        next := SubtreeEnd(i);
        return;
      }
      next := i + 1;
      if tree.nodes[i].surface { return; }
      for k := 0 to tree.nodes[i].children
        invariant i < next <= Skip(tree.nodes, i + 1, k)
        invariant forall j | 0 <= j < ids.Length && !(i <= j < Skip(tree.nodes, i, 1)) :: ids[j] == old(ids[j])
        invariant ids[i] == named(i) && forall j | 0 <= j < ids.Length :: ids[j] == old(ids[j]) || ids[j] == named(j)
      {
        ShortOfChild(tree.nodes, i, k, next);
        next := DeclareComposite(next, named);
      }
    }

    predicate HoldsChrome(i: nat)
      requires Valid() && i < |tree.nodes| && tree.nodes[i].children > 0
    {
      SubtreeFits(tree.nodes, i);
      ChildStart(tree.nodes, i, 0);
      tree.nodes[i].children == 2 && !tree.nodes[i + 1].client && tree.nodes[i + 1].children == 1
      && (SubtreeFits(tree.nodes, i + 1); ChildStart(tree.nodes, i + 1, 0); tree.nodes[i + 2].client)
    }

    method DeclareParts(i: nat, named: nat -> Id)
      requires Valid() && i < |tree.nodes|
      modifies ids
      ensures forall j | 0 <= j < ids.Length && !(i <= j < Skip(tree.nodes, i, 1)) :: ids[j] == old(ids[j])
      ensures ids[i] == old(ids[i]) && forall j | 0 <= j < ids.Length :: ids[j] == old(ids[j]) || ids[j] == named(j)
    {
      SubtreeFits(tree.nodes, i);
      var next := i + 1;
      for k := 0 to tree.nodes[i].children
        invariant i < next <= Skip(tree.nodes, i + 1, k)
        invariant forall j | 0 <= j < ids.Length && !(i <= j < Skip(tree.nodes, i, 1)) :: ids[j] == old(ids[j])
        invariant ids[i] == old(ids[i]) && forall j | 0 <= j < ids.Length :: ids[j] == old(ids[j]) || ids[j] == named(j)
      {
        ShortOfChild(tree.nodes, i, k, next);
        next := DeclareComposite(next, named);
      }
    }

    /** Where the frame's two children and the cut's one lie. */
    lemma {:induction false} ChromeFits(i: nat)
      requires Valid() && i < |tree.nodes| && tree.nodes[i].children > 0 && HoldsChrome(i)
      ensures var d := tree.nodes;
              && i + 2 < |d| && d[i + 2].client
              && Skip(d, i + 2, 1) <= Skip(d, i + 1, 1) < |d| && Skip(d, Skip(d, i + 1, 1), 1) <= Skip(d, i, 1) <= |d|
    {
      SubtreeFits(tree.nodes, i);
      ChildStart(tree.nodes, i, 0);
      ChildStart(tree.nodes, i, 1);
      SubtreeFits(tree.nodes, i + 1);
      ChildStart(tree.nodes, i + 1, 0);
    }

    method DeclareClientFrame(i: nat, named: nat -> Id)
      requires Valid() && i < |tree.nodes| && tree.nodes[i].client
      modifies ids
      ensures forall j | 0 <= j < ids.Length && !(i <= j < Skip(tree.nodes, i, 1)) :: ids[j] == old(ids[j])
      ensures ids[i] == named(i) && forall j | 0 <= j < ids.Length :: ids[j] == old(ids[j]) || ids[j] == named(j)
      decreases |tree.nodes| - i
    {
      if HoldsChrome(i) {
        ChromeFits(i);
        ids[i], ids[i + 1] := named(i), named(i + 1);
        DeclareClientFrame(i + 2, named);
        var probe := SubtreeEnd(i + 1);
        var _ := DeclareComposite(probe, named);
        return;
      }
      ids[i] := named(i);
      DeclareParts(i, named);
    }

    /** A composite in a layout. Nothing of it is declared for a client that is gone. */
    method DeclareLayoutClient(i: nat, gone: nat -> bool, named: nat -> Id) returns (end: nat)
      requires Valid() && i < |tree.nodes| && tree.nodes[i].client
      modifies ids
      ensures end == Skip(tree.nodes, i, 1) <= |tree.nodes|
      ensures forall j | 0 <= j < ids.Length && !(i <= j < end) :: ids[j] == old(ids[j])
      ensures forall j | 0 <= j < ids.Length :: ids[j] == old(ids[j]) || (!gone(i) && ids[j] == named(j))
      ensures !gone(i) ==> ids[i] == named(i)
    {
      end := SubtreeEnd(i);
      if gone(i) { return; }
      SubtreeFits(tree.nodes, i);
      ChildStart(tree.nodes, i, 0);
      if tree.nodes[i].floating && tree.nodes[i + 1].client && !HoldsChrome(i) {
        ids[i] := named(i);
        SubtreesNest(tree.nodes, i, 1, i + 1);
        DeclareClientFrame(i + 1, named);
      } else {
        DeclareClientFrame(i, named);
      }
    }

    /** Every node outside client composites is stored under the id its path gives it. */
    method DeclareSubtree(i: nat, id: Id, gone: nat -> bool, named: nat -> Id) returns (next: nat)
      requires Valid() && i < |tree.nodes| && id == IdOf(tree, root, i)
      modifies ids
      ensures next == Skip(tree.nodes, i, 1) <= |tree.nodes|
      ensures forall j | 0 <= j < ids.Length && !(i <= j < next) :: ids[j] == old(ids[j])
      ensures forall j | i <= j < next :: InComposite(tree.nodes, j) || ids[j] == IdOf(tree, root, j)
      decreases |tree.nodes| - i
    {
      SubtreeFits(tree.nodes, i);
      ids[i] := id;
      next := i + 1;
      if tree.nodes[i].text {
        assert Skip(tree.nodes, i, 1) == i + 1;
        return;
      }
      if tree.nodes[i].client {
        next := DeclareLayoutClient(i, gone, named);
        return;
      }
      for k := 0 to tree.nodes[i].children
        invariant next == Skip(tree.nodes, i + 1, k) && i < next <= |tree.nodes|
        invariant forall j | 0 <= j < ids.Length && !(i <= j < next) :: ids[j] == old(ids[j])
        invariant forall j | i <= j < next :: InComposite(tree.nodes, j) || ids[j] == IdOf(tree, root, j)
      {
        EnterChild(i, k);
        next := DeclareSubtree(next, ChildId(tree, tree.nodes[next], id, k), gone, named);
      }
    }

    // --- reading back ---

    /** Every node outside the composites is stored under its path's id. */
    ghost predicate Stored()
      requires Valid()
      reads ids
    {
      forall j | 0 <= j < |tree.nodes| :: InComposite(tree.nodes, j) || ids[j] == IdOf(tree, root, j)
    }

    /** One node's part of the readback, for a node outside every composite. */
    method VisitBox(i: nat, id: Id, found: Id -> bool, withIds: bool, out: seq<Published>) returns (r: seq<Published>)
      requires Valid() && i < |tree.nodes| && id == IdOf(tree, root, i)
      requires Outside(tree.nodes, i) && !tree.nodes[i].client && (withIds ==> Stored())
      ensures r == out + Boxes(tree, root, found, withIds, i, i + 1)
    {
      NotInComposite(tree.nodes, i);
      assert Boxes(tree, root, found, withIds, i + 1, i + 1) == [];
      r := out;
      if !tree.nodes[i].text && found(id) && (tree.nodes[i].widget || (withIds && tree.nodes[i].scroll)) {
        r := r + [Published(i, id, if withIds then Some(ids[i]) else None)];
      }
    }

    /** The k-th child: where it starts and ends, and its id. */
    lemma {:induction false} EnterChild(i: nat, k: nat)
      requires Valid() && i < |tree.nodes| && k < tree.nodes[i].children
      ensures var c := Skip(tree.nodes, i + 1, k);
              && i < c < |tree.nodes| && Skip(tree.nodes, c, 1) == Skip(tree.nodes, i + 1, k + 1) <= |tree.nodes|
              && IdOf(tree, root, c) == ChildId(tree, tree.nodes[c], IdOf(tree, root, i), k)
    {
      SubtreeFits(tree.nodes, i);
      ChildStart(tree.nodes, i, k);
      IdsPass(tree, root, i, k);
    }

    /** Boxes are read by recomputed ids and reported under stored ones; they are the same.
        Without an array for ids, scroll nodes that are no widget are not reported. */
    method BoxesWalk(i: nat, id: Id, found: Id -> bool, withIds: bool, out: seq<Published>)
      returns (next: nat, r: seq<Published>)
      requires Valid() && i < |tree.nodes| && id == IdOf(tree, root, i) && Outside(tree.nodes, i)
      requires withIds ==> Stored()
      ensures next == Skip(tree.nodes, i, 1) <= |tree.nodes|
      ensures r == out + Boxes(tree, root, found, withIds, i, next)
      decreases |tree.nodes| - i
    {
      SubtreeFits(tree.nodes, i);
      if tree.nodes[i].client {
        next := SubtreeEnd(i);
        r := out;
        NothingPublished(tree, root, found, withIds, i, i);
        return;
      }
      r := VisitBox(i, id, found, withIds, out);
      next := i + 1;
      for k := 0 to tree.nodes[i].children
        invariant next == Skip(tree.nodes, i + 1, k) && i < next <= |tree.nodes|
        invariant r == out + Boxes(tree, root, found, withIds, i, next)
      {
        EnterChild(i, k);
        OutsideChild(tree.nodes, i, k);
        ghost var start := next;
        next, r := BoxesWalk(next, ChildId(tree, tree.nodes[next], id, k), found, withIds, r);
        BoxesGoOn(tree, root, found, withIds, i, start, next, out);
      }
    }

    /** One node's part of the hit walk. */
    method VisitHit(i: nat, id: Id, over: Id -> bool, masked: bool, cap: nat, f: Found, ghost rejects: Id -> bool)
      returns (r: Found)
      requires Valid() && i < |tree.nodes| && id == IdOf(tree, root, i) && |f.hits| <= cap
      requires masked <==> Masked(tree, root, rejects, i)
      ensures r == FoundIn(tree, root, over, rejects, i, i + 1, cap, f)
    {
      SelectOne(i, HitOf(tree, root, over, rejects));
      assert CapturedIn(tree, root, over, i, i + 1) <==> Captures(tree, root, over, i);
      r := f;
      if over(id) {
        if !masked && tree.nodes[i].widget && |r.hits| < cap { r := r.(hits := r.hits + [i]); }
        if tree.nodes[i].floating && !tree.nodes[i].passthrough { r := r.(captured := true); }
      }
    }

    /** The k-th child for the hit walk: also which masks are above it. */
    lemma {:induction false} EnterMasked(i: nat, k: nat, rejects: Id -> bool)
      requires Valid() && i < |tree.nodes| && k < tree.nodes[i].children
      ensures var c := Skip(tree.nodes, i + 1, k);
              && i < c < |tree.nodes| && Skip(tree.nodes, c, 1) == Skip(tree.nodes, i + 1, k + 1) <= |tree.nodes|
              && IdOf(tree, root, c) == ChildId(tree, tree.nodes[c], IdOf(tree, root, i), k)
              && (MaskedAbove(tree, root, rejects, c) <==> Masked(tree, root, rejects, i))
    {
      EnterChild(i, k);
      MaskPasses(tree, root, rejects, i, k);
    }

    /** The nodes under a point, outermost first, up to a limit, without those a mask
        above them removes. */
    method HitsWalk(i: nat, id: Id, over: Id -> bool, rejects: Id -> bool, cap: nat, above: bool, f: Found)
      returns (next: nat, r: Found)
      requires Valid() && i < |tree.nodes| && id == IdOf(tree, root, i)
      requires above <==> MaskedAbove(tree, root, rejects, i)
      requires |f.hits| <= cap
      ensures next == Skip(tree.nodes, i, 1) <= |tree.nodes|
      ensures r == FoundIn(tree, root, over, rejects, i, next, cap, f)
      decreases |tree.nodes| - i
    {
      SubtreeFits(tree.nodes, i);
      var masked := above || rejects(id);
      MaskedHere(tree, root, rejects, i);
      r := VisitHit(i, id, over, masked, cap, f, rejects);
      next := i + 1;
      for k := 0 to tree.nodes[i].children
        invariant next == Skip(tree.nodes, i + 1, k) && i < next <= |tree.nodes|
        invariant r == FoundIn(tree, root, over, rejects, i, next, cap, f)
      {
        EnterMasked(i, k, rejects);
        ghost var start := next;
        next, r := HitsWalk(next, ChildId(tree, tree.nodes[next], id, k), over, rejects, cap, masked, r);
        FoundGoesOn(tree, root, over, rejects, i, start, next, cap, f);
      }
    }

    /** The first node in preorder that has the id; the index moves past the whole subtree. */
    method NodeForId(i: nat, id: Id, want: Id) returns (next: nat, hit: Option<nat>)
      requires Valid() && i < |tree.nodes| && id == IdOf(tree, root, i)
      ensures next == Skip(tree.nodes, i, 1) <= |tree.nodes|
      ensures hit.Some? ==> i <= hit.value < next && IdOf(tree, root, hit.value) == want
      ensures forall j | i <= j < (if hit.Some? then hit.value else next) :: IdOf(tree, root, j) != want
      decreases |tree.nodes| - i
    {
      SubtreeFits(tree.nodes, i);
      next, hit := i + 1, if id == want then Some(i) else None;
      for k := 0 to tree.nodes[i].children
        invariant next == Skip(tree.nodes, i + 1, k) && i < next <= |tree.nodes|
        invariant hit.Some? ==> i <= hit.value < next && IdOf(tree, root, hit.value) == want
        invariant forall j | i <= j < (if hit.Some? then hit.value else next) :: IdOf(tree, root, j) != want
      {
        EnterChild(i, k);
        var c;
        next, c := NodeForId(next, ChildId(tree, tree.nodes[next], id, k), want);
        if c.Some? && hit.None? { hit := c; }
      }
    }

    /** The dump's annotations: every node once, in preorder, under its id. */
    method AnnotateTree(i: nat, id: Id, out: seq<(Id, nat)>) returns (next: nat, r: seq<(Id, nat)>)
      requires Valid() && i < |tree.nodes| && id == IdOf(tree, root, i)
      ensures next == Skip(tree.nodes, i, 1) <= |tree.nodes|
      ensures |r| == |out| + next - i && r[..|out|] == out
      ensures forall j | i <= j < next :: r[|out| + j - i] == (IdOf(tree, root, j), j)
      decreases |tree.nodes| - i
    {
      SubtreeFits(tree.nodes, i);
      next, r := i + 1, out + [(id, i)];
      for k := 0 to tree.nodes[i].children
        invariant next == Skip(tree.nodes, i + 1, k) && i < next <= |tree.nodes|
        invariant |r| == |out| + next - i && r[..|out|] == out
        invariant forall j | i <= j < next :: r[|out| + j - i] == (IdOf(tree, root, j), j)
      {
        EnterChild(i, k);
        ghost var start, old_r := next, r;
        next, r := AnnotateTree(next, ChildId(tree, tree.nodes[next], id, k), r);
        forall j | i <= j < start ensures r[|out| + j - i] == (IdOf(tree, root, j), j) {
          assert r[..|old_r|][|out| + j - i] == old_r[|out| + j - i];
        }
        assert r[..|out|] == r[..|old_r|][..|out|];
      }
    }

    // --- whole trees ---

    /** declare_widget_tree_at: whichever clients are gone, the tree ends stored. */
    method DeclareTree(gone: nat -> bool, named: nat -> Id)
      requires Valid()
      modifies ids
      ensures Stored()
    {
      var next := DeclareSubtree(0, root, gone, named);
      assert next == |tree.nodes|;
    }

    /** A wallpaper tree that OUTPUT itself stands for: nothing is declared, and every
        node is stored under OUTPUT's id. */
    method FoldIntoOutput()
      requires Valid() && tree.fill == Some(root)
      modifies ids
      ensures Stored()
    {
      for i := 0 to |tree.nodes|
        invariant forall j | 0 <= j < i :: ids[j] == root
      {
        ids[i] := root;
      }
      forall j | 0 <= j < |tree.nodes| ensures ids[j] == IdOf(tree, root, j) {
        FilledTreeIsOneElement(tree, root, j);
      }
    }

    /** widget_boxes_read after either: each published node once, in preorder, its box read
        under the id it is reported with. Outside composites these are the widgets that Clay
        found, text aside, and scroll nodes when the caller takes ids. */
    method ReadBoxes(found: Id -> bool, withIds: bool) returns (r: seq<Published>)
      requires Valid() && (withIds ==> Stored())
      ensures r == if found(root) then Boxes(tree, root, found, withIds, 0, |tree.nodes|) else []
      ensures found(root) ==> forall j: nat :: j in Reported(r) <==>
                && j < |tree.nodes| && !InComposite(tree.nodes, j) && !tree.nodes[j].text
                && found(IdOf(tree, root, j)) && (tree.nodes[j].widget || (withIds && tree.nodes[j].scroll))
    {
      BoxesExact(tree, root, found, withIds);
      r := [];
      if found(root) {
        var next;
        next, r := BoxesWalk(0, root, found, withIds, []);
        assert [] + Boxes(tree, root, found, withIds, 0, next) == Boxes(tree, root, found, withIds, 0, |tree.nodes|);
      }
    }

    /** The widgets under the point, outermost first, as many as there is room for, without
        those that reject it or lie in one that does; and whether a float under it captures. */
    method WidgetHits(over: Id -> bool, rejects: Id -> bool, cap: nat) returns (r: seq<nat>, captured: bool)
      requires Valid()
      ensures r == Capped(cap, HitsIn(tree, root, over, rejects, 0, |tree.nodes|))
      ensures FirstHits(tree, root, over, rejects, cap, r)
      ensures captured <==> CapturedIn(tree, root, over, 0, |tree.nodes|)
    {
      HitsExact(tree, root, over, rejects, cap);
      var next, f := HitsWalk(0, root, over, rejects, cap, false, Found([], false));
      r, captured := f.hits, f.captured;
      assert [] + HitsIn(tree, root, over, rejects, 0, next) == HitsIn(tree, root, over, rejects, 0, next);
    }

    /** A stored id is found again, at the first node that carries it. */
    method FindStored(j: nat) returns (hit: Option<nat>)
      requires Valid() && Stored() && j < |tree.nodes| && !InComposite(tree.nodes, j)
      ensures hit.Some? && hit.value <= j && IdOf(tree, root, hit.value) == ids[j]
      ensures (forall a | 0 <= a < |tree.nodes| && a != j :: IdOf(tree, root, a) != IdOf(tree, root, j)) ==>
                hit == Some(j)
      ensures tree.fill.None? && Collisionless(tree.hashes, root) && TokensDiffer(tree.nodes) ==> hit == Some(j)
    {
      if tree.fill.None? && Collisionless(tree.hashes, root) && TokensDiffer(tree.nodes) {
        forall a | 0 <= a < j ensures IdOf(tree, root, a) != IdOf(tree, root, j) { IdsAreDistinct(tree, root, a, j); }
      }
      var next;
      next, hit := NodeForId(0, root, ids[j]);
    }
  }

  // --- text elements ---

  /** How many elements Clay has open under node i before its k-th child is declared. A
      composite whose client is gone declares nothing. */
  function OpenedBefore(d: seq<Node>, i: nat, k: nat, gone: nat -> bool): nat
    requires WellFormed(d) && i < |d| && k <= d[i].children
  {
    if k == 0 then 0
    else
      SubtreeFits(d, i);
      ChildStart(d, i, k - 1);
      var c := Skip(d, i + 1, k - 1);
      OpenedBefore(d, i, k - 1, gone) + (if d[c].client && gone(c) then 0 else 1)
  }

  predicate DeclaresNothing(d: seq<Node>, i: nat, m: nat, gone: nat -> bool) {
    var c := Skip(d, i + 1, m);
    c < |d| && d[c].client && gone(c)
  }

  /** Clay numbers a text element by the children opened so far. That is the index the tree
      stores it under exactly when no composite before it among its siblings was left out. */
  lemma {:induction false} TextKeepsItsIndexIffNothingIsLeftOut(d: seq<Node>, i: nat, k: nat, gone: nat -> bool)
    requires WellFormed(d) && i < |d| && k <= d[i].children
    ensures OpenedBefore(d, i, k, gone) <= k
    ensures OpenedBefore(d, i, k, gone) == k <==> forall m | 0 <= m < k :: !DeclaresNothing(d, i, m, gone)
    decreases k
  {
    if k > 0 {
      SubtreeFits(d, i);
      ChildStart(d, i, k - 1);
      TextKeepsItsIndexIffNothingIsLeftOut(d, i, k - 1, gone);
      assert DeclaresNothing(d, i, k - 1, gone) <==> OpenedBefore(d, i, k, gone) == OpenedBefore(d, i, k - 1, gone);
    }
  }

  const Box := Node(2, "", 0, false, false, false, false, true, false, false, false)
  const Composite := Node(1, "", 0, false, true, false, false, false, false, false, false)
  const Surface := Node(0, "", 0, false, false, false, true, false, false, false, false)
  const Text := Node(0, "", 0, true, false, false, false, false, false, false, false)

  /** A box with a client composite and a text behind it: when the client is gone, Clay
      numbers the text 0, and the tree stores it under index 1. */
  lemma TextBehindAGoneClientIsRenumbered()
    ensures var d := [Box, Composite, Surface, Text];
            && WellFormed(d) && Skip(d, 1, 1) == 3 && d[3].text && OpenedBefore(d, 0, 1, i => i == 1) == 0
  {
    var d := [Box, Composite, Surface, Text];
    assert Skip(d, 4, 0) == 4 && Skip(d, 3, 1) == 4 && Skip(d, 2, 2) == 4 && Skip(d, 1, 2) == 4;
    assert Skip(d, 3, 0) == 3 && Skip(d, 2, 1) == 3 && Skip(d, 1, 1) == 3;
    assert Skip(d, 1, 0) == 1;
    var gone := i => i == 1;
    TextKeepsItsIndexIffNothingIsLeftOut(d, 0, 1, gone);
    assert DeclaresNothing(d, 0, 0, gone);
  }
}

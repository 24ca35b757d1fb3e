/**
 One output's frame as a transaction. A frame declares widget trees, solves them in Clay
 and either commits, holding a view of every tree it declared, or fails and leaves what
 the last frame retained.
 */
module FrameSpec {
  import opened Options

  /** The arrays of a widget tree, with their size. An edit gives the tree new ones. Clay
      keeps pointers into those it solved, also of subtrees that are only leaving, so a
      view must hold them until Clay forgets them. */
  datatype Storage = Storage(id: nat, bytes: nat)

  datatype Host = Host(tree: nat, view: nat)

  /** The tree a record names: a live one while declaring, a held view once committed. */
  datatype TreeRef = NoTree | Live(tree: nat) | Held(view: nat)
  datatype Record = Record(id: nat, host: TreeRef)

  /** What a handle resolves to, when it resolves at all. */
  datatype OwnerKind = ClientOwner | DrawinOwner | OtherOwner

  const RETIRED_MAX := 8 * 1024 * 1024

  /**
   views are the views held, by every output; the others are the fields of
   this output's band, and clay is what its context points into.
   */
  datatype Band = Band(
    hosts: seq<Host>, retired: seq<nat>, records: seq<Record>, handles: seq<nat>, owners: seq<nat>,
    contextValid: bool, clay: set<Storage>,
    trees: map<nat, Storage>, views: map<nat, Storage>, next: nat)

  /** What the rest of the compositor answers during one frame. */
  datatype Input = Input(
    early: bool,               // exhausted before the layout was opened
    exits: seq<nat>,           // owners held while declaring
    kinds: map<nat, OwnerKind>,// the handles that resolve while they are
    solved: bool,              // the layout was solved
    declared: seq<nat>,        // solved_hosts
    records: seq<Record>,
    handles: seq<nat>,         // the owners of the solved commands
    clay: set<Storage>,        // what Clay points into after the solve
    edits: seq<(nat, Storage)>,// trees replaced by handlers of the solve
    handlesAllocated: bool, hostsAllocated: bool, retiredAllocated: bool,
    holdFails: Option<nat>)    // the hold that finds no memory

  // --- the parts of a frame ---

  /** hold_exit_owner: only clients and drawins have exiting subtrees to hold for. */
  predicate Holdable(kinds: map<nat, OwnerKind>, h: nat) {
    h in kinds && !kinds[h].OtherOwner?
  }

  function HoldOwners(owners: seq<nat>, exits: seq<nat>, kinds: map<nat, OwnerKind>): seq<nat> {
    if exits == [] then owners
    else
      var o := HoldOwners(owners, exits[..|exits| - 1], kinds);
      var h := exits[|exits| - 1];
      if h in o || !Holdable(kinds, h) then o else o + [h]
  }

  /** release_exit_owners from slot i: the last owner takes a released one's place. */
  function ReleaseOwners(owners: seq<nat>, i: nat, used: seq<nat>): (seq<nat>, seq<nat>)
    requires i <= |owners|
    decreases |owners| - i
  {
    if i == |owners| then (owners, [])
    else if owners[i] in used then ReleaseOwners(owners, i + 1, used)
    else
      var n := |owners| - 1;
      var r := ReleaseOwners(owners[i := owners[n]][..n], i, used);
      (r.0, [owners[i]] + r.1)
  }

  function Edited(trees: map<nat, Storage>, edits: seq<(nat, Storage)>): map<nat, Storage> {
    if edits == [] then trees
    else Edited(trees, edits[..|edits| - 1])[edits[|edits| - 1].0 := edits[|edits| - 1].1]
  }

  /** The hosts of a frame: the i-th declared tree gets view next + i. */
  function NextHosts(declared: seq<nat>, next: nat): (hs: seq<Host>)
    ensures |hs| == |declared|
    ensures forall i | 0 <= i < |hs| :: hs[i] == Host(declared[i], next + i)
  {
    seq(|declared|, i requires 0 <= i < |declared| => Host(declared[i], next + i))
  }

  function HeldViews(views: map<nat, Storage>, trees: map<nat, Storage>, declared: seq<nat>, next: nat)
    : (r: map<nat, Storage>)
    requires forall t | t in declared :: t in trees
    ensures forall v :: v in r <==> v in views || next <= v < next + |declared|
    ensures forall v | next <= v < next + |declared| :: r[v] == trees[declared[v - next]]
    ensures forall v | v in views && !(next <= v < next + |declared|) :: r[v] == views[v]
  {
    if declared == [] then views
    else
      var n := |declared| - 1;
      HeldViews(views, trees, declared[..n], next)[next + n := trees[declared[n]]]
  }

  function ViewsOf(hosts: seq<Host>): (vs: seq<nat>)
    ensures |vs| == |hosts| && forall i | 0 <= i < |vs| :: vs[i] == hosts[i].view
  {
    seq(|hosts|, i requires 0 <= i < |hosts| => hosts[i].view)
  }

  /** The views a band holds: the retired ones, then its hosts'. */
  function OwnViews(b: Band): seq<nat> {
    b.retired + ViewsOf(b.hosts)
  }

  /** shares_payload */
  predicate Shares(v: nat, hosts: seq<Host>, views: map<nat, Storage>) {
    v in views && exists i :: 0 <= i < |hosts| && hosts[i].view in views && views[hosts[i].view] == views[v]
  }

  predicate Stays(v: nat, hosts: seq<Host>, views: map<nat, Storage>, clay: set<Storage>) {
    v in views && !Shares(v, hosts, views) && views[v] in clay
  }

  /** The old views that must outlive this frame. */
  function Retire(prev: seq<nat>, hosts: seq<Host>, views: map<nat, Storage>, clay: set<Storage>): seq<nat> {
    if prev == [] then []
    else
      var n := |prev| - 1;
      var r := Retire(prev[..n], hosts, views, clay);
      if Stays(prev[n], hosts, views, clay) then r + [prev[n]] else r
  }

  function Bytes(vs: seq<nat>, views: map<nat, Storage>): nat {
    if vs == [] then 0
    else
      var v := vs[|vs| - 1];
      Bytes(vs[..|vs| - 1], views) + (if v in views then views[v].bytes else 0)
  }

  function WithView(r: Record, hosts: seq<Host>): Record {
    if r.host.Live? && exists i :: 0 <= i < |hosts| && hosts[i].tree == r.host.tree then
      r.(host := Held(ViewFor(r.host.tree, hosts)))
    else r
  }

  function ViewFor(tree: nat, hosts: seq<Host>): (v: nat)
    requires exists i :: 0 <= i < |hosts| && hosts[i].tree == tree
    ensures v in ViewsOf(hosts)
  {
    if hosts[0].tree == tree then assert ViewsOf(hosts)[0] == hosts[0].view; hosts[0].view
    else
      var v := ViewFor(tree, hosts[1..]);
      assert forall i | 0 <= i < |hosts[1..]| :: ViewsOf(hosts)[i + 1] == ViewsOf(hosts[1..])[i];
      v
  }

  function WithViews(rs: seq<Record>, hosts: seq<Host>): (r: seq<Record>)
    ensures |r| == |rs|
    ensures forall i | 0 <= i < |rs| :: r[i] == WithView(rs[i], hosts)
  {
    seq(|rs|, i requires 0 <= i < |rs| => WithView(rs[i], hosts))
  }

  /** The failed label: the context starts over, everything retained is as before. */
  function Fail(b: Band, holds: nat): Band {
    b.(contextValid := false, clay := {}, next := b.next + holds)
  }

  /** The first hold that fails, or all of them. */
  function Holds(input: Input): nat {
    if input.holdFails.Some? && input.holdFails.value < |input.declared| then input.holdFails.value
    else |input.declared|
  }

  /** declare_output_frame: the band after it, and whether it committed. */
  function Frame(b: Band, input: Input): (Band, bool)
    requires ValidInput(b, input)
  {
    if input.early then (Fail(b, 0), false)
    else
      var d := b.(owners := HoldOwners(b.owners, input.exits, input.kinds));
      if !input.solved then (Fail(d, 0), false)
      else
        var s := Solved(b, input);
        if !input.handlesAllocated || !input.hostsAllocated then (Fail(s, 0), false)
        else if Holds(input) < |input.declared| then (Fail(s, Holds(input)), false)
        else if !input.retiredAllocated then (Fail(s, |input.declared|), false)
        else
          if Bytes(RetiredViews(s, input), NewViews(s, input)) > RETIRED_MAX then (Fail(s, |input.declared|), false)
          else (Commit(s, input), true)
  }

  /** The band after the solve, when the holds are taken. */
  function Solved(b: Band, input: Input): Band {
    b.(owners := HoldOwners(b.owners, input.exits, input.kinds), clay := input.clay,
       trees := Edited(b.trees, input.edits))
  }

  function NewViews(s: Band, input: Input): map<nat, Storage>
    requires forall t | t in input.declared :: t in s.trees
  {
    HeldViews(s.views, s.trees, input.declared, s.next)
  }

  function RetiredViews(s: Band, input: Input): seq<nat>
    requires forall t | t in input.declared :: t in s.trees
  {
    Retire(OwnViews(s), NextHosts(input.declared, s.next), NewViews(s, input), s.clay)
  }

  /** Past the last failure: release what does not stay, and install the new state. */
  function Commit(s: Band, input: Input): Band
    requires forall t | t in input.declared :: t in s.trees
  {
    var hosts := NextHosts(input.declared, s.next);
    var views, retired := NewViews(s, input), RetiredViews(s, input);
    s.(hosts := hosts, retired := retired, records := WithViews(input.records, hosts),
       handles := input.handles, owners := ReleaseOwners(s.owners, 0, input.handles).0,
       contextValid := true, next := s.next + |input.declared|,
       views := map v | v in views && (v in retired || v !in OwnViews(s)) :: views[v])
  }

  /** What Clay and the declaration pass promise: declared trees exist, also after the
      solve, and Clay points into the trees just declared and what it pointed into before. */
  ghost predicate ValidInput(b: Band, input: Input) {
    && (forall t | t in input.declared :: t in b.trees)
    && (forall t | t in input.declared :: t in Edited(b.trees, input.edits))
    && (forall i | 0 <= i < |input.records| ::
          input.records[i].host == NoTree
            || (input.records[i].host.Live? && input.records[i].host.tree in input.declared))
    && (forall p | p in input.clay :: p in b.clay || exists t :: t in input.declared && b.trees[t] == p)
  }

  // --- the invariant ---

  ghost predicate HeldBy(vs: seq<nat>, views: map<nat, Storage>, p: Storage) {
    exists v :: v in vs && v in views && views[v] == p
  }

  ghost predicate HeldIn(b: Band, p: Storage) {
    HeldBy(OwnViews(b), b.views, p)
  }

  ghost predicate Covered(b: Band) {
    forall p | p in b.clay :: HeldIn(b, p)
  }

  predicate Distinct(vs: seq<nat>) {
    forall i, j | 0 <= i < j < |vs| :: vs[i] != vs[j]
  }

  /** The views held are those of others and, once each, the band's own. */
  ghost predicate OwnsExactly(b: Band, others: map<nat, Storage>) {
    && Distinct(OwnViews(b))
    && (forall v | v in others :: v in b.views && b.views[v] == others[v] && v !in OwnViews(b))
    && (forall v :: v in b.views <==> v in others || v in OwnViews(b))
    && (forall v | v in b.views :: v < b.next)
  }

  ghost predicate RecordsHeld(b: Band) {
    forall i | 0 <= i < |b.records| ::
      b.records[i].host == NoTree || (b.records[i].host.Held? && b.records[i].host.view in ViewsOf(b.hosts))
  }

  ghost predicate Inv(b: Band, others: map<nat, Storage>) {
    && Covered(b) && OwnsExactly(b, others) && RecordsHeld(b)
    && Bytes(b.retired, b.views) <= RETIRED_MAX
    && (b.contextValid || b.clay == {})
  }

  /** No handler of the solve replaces arrays that Clay points into, unless an older view has them. */
  ghost predicate QuietSolve(b: Band, input: Input) {
    forall p | p in input.clay :: HeldIn(b, p) || StorageOf(input.declared, Edited(b.trees, input.edits), p)
  }

  ghost predicate StorageOf(declared: seq<nat>, trees: map<nat, Storage>, p: Storage) {
    exists t :: t in declared && t in trees && trees[t] == p
  }

  // --- proofs ---

  lemma {:induction false} RetireIsFilter(prev: seq<nat>, hosts: seq<Host>, views: map<nat, Storage>,
                                          clay: set<Storage>)
    ensures forall v :: v in Retire(prev, hosts, views, clay) <==> v in prev && Stays(v, hosts, views, clay)
    ensures Distinct(prev) ==> Distinct(Retire(prev, hosts, views, clay))
    decreases |prev|
  {
    if prev != [] {
      var n := |prev| - 1;
      RetireIsFilter(prev[..n], hosts, views, clay);
      assert prev == prev[..n] + [prev[n]];
    }
  }

  lemma {:induction false} BytesSameViews(vs: seq<nat>, a: map<nat, Storage>, b: map<nat, Storage>)
    requires forall v | v in vs :: v in a && v in b && a[v] == b[v]
    ensures Bytes(vs, a) == Bytes(vs, b)
    decreases |vs|
  {
    if vs != [] { BytesSameViews(vs[..|vs| - 1], a, b); }
  }

  /** A failed frame retains what there was: hosts, retired views, records and
      command handles are untouched, every new hold is released, and no owner an
      exiting subtree needs is given up; those the pass found are held besides. */
  lemma FailedFrameRestores(b: Band, input: Input)
    requires ValidInput(b, input) && !Frame(b, input).1
    ensures var r := Frame(b, input).0;
            && r.hosts == b.hosts && r.retired == b.retired && r.records == b.records && r.handles == b.handles
            && r.views == b.views && r.clay == {} && !r.contextValid
            && (forall h :: h in r.owners <==>
                  h in b.owners || (!input.early && h in input.exits && Holdable(input.kinds, h)))
            && r.trees == if input.early || !input.solved then b.trees else Edited(b.trees, input.edits)
  {
    HoldOwnersKeeps(b.owners, input.exits, input.kinds);
  }

  /** A frame commits exactly when it is solved, finds all the memory it needs, and what
      Clay would have it retire is within the limit. */
  lemma CommitsIffAllFits(b: Band, input: Input)
    requires ValidInput(b, input)
    ensures Frame(b, input).1 <==>
              && !input.early && input.solved && input.handlesAllocated && input.hostsAllocated
              && (input.holdFails.Some? ==> input.holdFails.value >= |input.declared|) && input.retiredAllocated
              && var c := Commit(Solved(b, input), input); Bytes(c.retired, c.views) <= 8 * 1024 * 1024
  {
    var s := Solved(b, input);
    RetiredAreViews(s, input);
    BytesSameViews(RetiredViews(s, input), NewViews(s, input), Commit(s, input).views);
  }

  lemma RetiredAreViews(s: Band, input: Input)
    requires forall t | t in input.declared :: t in s.trees
    ensures var c := Commit(s, input);
            forall v | v in c.retired :: v in c.views && v in NewViews(s, input) && c.views[v] == NewViews(s, input)[v]
  {
    RetireIsFilter(OwnViews(s), NextHosts(input.declared, s.next), NewViews(s, input), s.clay);
  }

  lemma {:induction false} HoldOwnersKeeps(owners: seq<nat>, exits: seq<nat>, kinds: map<nat, OwnerKind>)
    ensures forall h :: h in HoldOwners(owners, exits, kinds) <==> h in owners || (h in exits && Holdable(kinds, h))
    ensures Distinct(owners) ==> Distinct(HoldOwners(owners, exits, kinds))
    decreases |exits|
  {
    if exits != [] {
      HoldOwnersKeeps(owners, exits[..|exits| - 1], kinds);
      assert exits == exits[..|exits| - 1] + [exits[|exits| - 1]];
    }
  }

  lemma SwapRemove(owners: seq<nat>, i: nat)
    requires i < |owners|
    ensures var n := |owners| - 1;
            multiset(owners[i := owners[n]][..n]) + multiset{owners[i]} == multiset(owners)
  {
    SwapParts(owners, i);
    var n := |owners| - 1;
    if i < n { SwappedParts(owners[..i], owners[i], owners[i + 1..n], owners[n]); }
  }

  lemma SwapParts(owners: seq<nat>, i: nat)
    requires i < |owners|
    ensures var n := |owners| - 1; var rest := owners[i := owners[n]][..n];
            if i == n then owners == rest + [owners[i]]
            else owners == owners[..i] + [owners[i]] + owners[i + 1..n] + [owners[n]]
                 && rest == owners[..i] + [owners[n]] + owners[i + 1..n]
  {
  }

  lemma SwappedParts(a: seq<nat>, x: nat, b: seq<nat>, y: nat)
    ensures multiset(a + [y] + b) + multiset{x} == multiset(a + [x] + b + [y])
  {
  }

  /** After a commit exactly the owners of a solved command are held, and every
      other one was released once. */
  lemma {:induction false} ReleaseOwnersExact(owners: seq<nat>, i: nat, used: seq<nat>)
    requires i <= |owners| && forall j | 0 <= j < i :: owners[j] in used
    ensures var r := ReleaseOwners(owners, i, used);
            && multiset(r.0) + multiset(r.1) == multiset(owners)
            && (forall h | h in r.0 :: h in used) && (forall h | h in r.1 :: h !in used)
    decreases |owners| - i
  {
    if i < |owners| {
      if owners[i] in used {
        ReleaseOwnersExact(owners, i + 1, used);
      } else {
        var n := |owners| - 1;
        SwapRemove(owners, i);
        var rest := owners[i := owners[n]][..n];
        ReleaseOwnersExact(rest, i, used);
        var r := ReleaseOwners(rest, i, used);
        assert multiset([owners[i]] + r.1) == multiset{owners[i]} + multiset(r.1);
        assert multiset(r.0) + multiset([owners[i]] + r.1) == multiset(rest) + multiset{owners[i]};
      }
    }
  }

  lemma CommitOwners(b: Band, input: Input)
    requires ValidInput(b, input) && Frame(b, input).1
    ensures forall h :: h in Frame(b, input).0.owners <==>
              (h in b.owners || (h in input.exits && Holdable(input.kinds, h))) && h in input.handles
  {
    var o := HoldOwners(b.owners, input.exits, input.kinds);
    HoldOwnersKeeps(b.owners, input.exits, input.kinds);
    ReleaseOwnersExact(o, 0, input.handles);
    var r := ReleaseOwners(o, 0, input.handles);
    forall h ensures h in r.0 <==> h in o && h in input.handles {
      assert h in multiset(o) <==> h in o;
      assert h in multiset(r.0) + multiset(r.1) <==> h in r.0 || h in r.1;
    }
  }

  lemma OwnAfter(s: Band, input: Input, v: nat)
    requires forall t | t in input.declared :: t in s.trees
    ensures var c := Commit(s, input); v in OwnViews(c) <==> v in c.retired || s.next <= v < c.next
  {
    var c := Commit(s, input);
    var vs := ViewsOf(c.hosts);
    assert v in OwnViews(c) <==> v in c.retired || v in vs;
    if s.next <= v < c.next { assert vs[v - s.next] == v; }
  }

  /** The views a commit leaves the band: the retired ones and one for each declared tree. */
  lemma CommitViews(s: Band, others: map<nat, Storage>, input: Input)
    requires OwnsExactly(s, others) && forall t | t in input.declared :: t in s.trees
    ensures var c := Commit(s, input);
            && (forall v: nat :: v in OwnViews(c) <==> v in c.retired || s.next <= v < c.next)
            && (forall v | v in c.retired :: v in OwnViews(s))
            && Distinct(c.retired)
            && (forall v | v in c.views :: c.views[v] == NewViews(s, input)[v])
            && (forall v :: v in c.views <==> v in others || v in OwnViews(c))
  {
    var c := Commit(s, input);
    RetireIsFilter(OwnViews(s), c.hosts, NewViews(s, input), s.clay);
    forall v: nat ensures v in OwnViews(c) <==> v in c.retired || s.next <= v < c.next {
      OwnAfter(s, input, v);
    }
  }

  lemma NewViewsAreApart(retired: seq<nat>, hosts: seq<Host>, next: nat)
    requires Distinct(retired) && (forall v | v in retired :: v < next)
    requires forall i | 0 <= i < |hosts| :: hosts[i].view == next + i
    ensures Distinct(retired + ViewsOf(hosts))
  {
    var own, k := retired + ViewsOf(hosts), |retired|;
    forall i, j | 0 <= i < j < |own| ensures own[i] != own[j] {
      if j >= k { assert own[j] == ViewsOf(hosts)[j - k]; }
      if i >= k { assert own[i] == ViewsOf(hosts)[i - k]; }
      if i < k { assert own[i] in retired; }
    }
  }

  lemma CommitOwnsExactly(s: Band, others: map<nat, Storage>, input: Input)
    requires OwnsExactly(s, others) && forall t | t in input.declared :: t in s.trees
    ensures OwnsExactly(Commit(s, input), others)
  {
    CommitViews(s, others, input);
    var c := Commit(s, input);
    forall v | v in c.retired ensures v < s.next { assert v in OwnViews(s) && v in s.views; }
    NewViewsAreApart(c.retired, c.hosts, s.next);
    forall v | v in others ensures v in c.views && c.views[v] == others[v] && v !in OwnViews(c) {
      assert v in s.views && v < s.next;
    }
    forall v | v in c.views ensures v < c.next {
      if v in others { assert v in s.views; }
      if v in c.retired { assert v in OwnViews(s) && v in s.views; }
    }
  }

  lemma CommitRecordsHeld(b: Band, input: Input)
    requires ValidInput(b, input) && Frame(b, input).1
    ensures RecordsHeld(Frame(b, input).0)
  {
    var r := Frame(b, input).0;
    forall i | 0 <= i < |r.records| && input.records[i].host.Live?
      ensures r.records[i].host.Held? && r.records[i].host.view in ViewsOf(r.hosts)
    {
      var k :| 0 <= k < |input.declared| && input.declared[k] == input.records[i].host.tree;
      assert r.hosts[k].tree == input.declared[k];
    }
  }

  /** The last edit of a tree is the one it has, and a tree without one keeps what it had. */
  lemma {:induction false} LastEditStands(trees: map<nat, Storage>, edits: seq<(nat, Storage)>, i: nat)
    requires i < |edits| && forall j | i < j < |edits| :: edits[j].0 != edits[i].0
    ensures edits[i].0 in Edited(trees, edits) && Edited(trees, edits)[edits[i].0] == edits[i].1
    decreases |edits|
  {
    if i < |edits| - 1 {
      var init := edits[..|edits| - 1];
      assert init[i] == edits[i] && forall j | i < j < |init| :: init[j] == edits[j];
      LastEditStands(trees, init, i);
    }
  }

  lemma {:induction false} UneditedStands(trees: map<nat, Storage>, edits: seq<(nat, Storage)>, t: nat)
    requires forall i | 0 <= i < |edits| :: edits[i].0 != t
    ensures t in Edited(trees, edits) <==> t in trees
    ensures t in trees ==> Edited(trees, edits)[t] == trees[t]
    decreases |edits|
  {
    if edits != [] {
      UneditedStands(trees, edits[..|edits| - 1], t);
    }
  }

  /** The record keeps its id and, if it named a live tree that a host has, names a view that
      belongs to a host of that tree; any other record is as it was. */
  ghost predicate NamesView(solved: Record, r: Record, hosts: seq<Host>) {
    && r.id == solved.id
    && (if solved.host.Live? && exists k :: 0 <= k < |hosts| && hosts[k].tree == solved.host.tree
        then r.host.Held? && exists k :: 0 <= k < |hosts| && hosts[k] == Host(solved.host.tree, r.host.view)
        else r.host == solved.host)
  }

  lemma WithViewNamesView(solved: Record, hosts: seq<Host>)
    ensures NamesView(solved, WithView(solved, hosts), hosts)
  {
    if solved.host.Live? && exists k :: 0 <= k < |hosts| && hosts[k].tree == solved.host.tree {
      var k := ViewForHost(solved.host.tree, hosts);
      assert hosts[k] == Host(solved.host.tree, hosts[k].view);
    }
  }

  /** The view named holds what the tree has. */
  ghost predicate NamesItsTree(solved: Record, r: Record, hosts: seq<Host>, views: map<nat, Storage>,
                               trees: map<nat, Storage>) {
    && NamesView(solved, r, hosts)
    && (solved.host.Live? ==>
          && r.host.Held? && r.host.view in views && solved.host.tree in trees
          && views[r.host.view] == trees[solved.host.tree])
  }

  /** After a commit there are the solved records, each under its own id, and each that named
      a live tree names the view of that very tree, which holds what the tree had when the
      holds were taken; the hosts are the declared trees in order, and the command handles
      are the solved ones. */
  lemma CommitRecordsNameTheirTrees(b: Band, others: map<nat, Storage>, input: Input)
    requires OwnsExactly(b, others) && ValidInput(b, input) && Frame(b, input).1
    ensures var r := Frame(b, input).0;
            && |r.records| == |input.records| && r.handles == input.handles
            && HoldsTrees(r.hosts, r.views, input.declared, Edited(b.trees, input.edits))
            && forall i | 0 <= i < |r.records| ::
                 NamesItsTree(input.records[i], r.records[i], r.hosts, r.views, Edited(b.trees, input.edits))
  {
    var s := Solved(b, input);
    assert Frame(b, input).0 == Commit(s, input) && OwnViews(s) == OwnViews(b);
    HostsHoldTheirTrees(s, others, input);
    RecordsNameTheirTrees(s, input);
  }

  lemma RecordsNameTheirTrees(s: Band, input: Input)
    requires forall t | t in input.declared :: t in s.trees
    requires HoldsTrees(Commit(s, input).hosts, Commit(s, input).views, input.declared, s.trees)
    requires forall i | 0 <= i < |input.records| ::
               input.records[i].host == NoTree
                 || (input.records[i].host.Live? && input.records[i].host.tree in input.declared)
    ensures var c := Commit(s, input);
            && |c.records| == |input.records|
            && forall i | 0 <= i < |c.records| ::
                 NamesItsTree(input.records[i], c.records[i], c.hosts, c.views, s.trees)
  {
    var c := Commit(s, input);
    forall i | 0 <= i < |input.records|
      ensures NamesItsTree(input.records[i], c.records[i], c.hosts, c.views, s.trees)
    {
      RecordNamesItsTree(input.records[i], c.hosts, c.views, input.declared, s.trees);
    }
  }

  /** The host is the tree's, and its view holds what the tree has. */
  ghost predicate HoldsTree(host: Host, views: map<nat, Storage>, t: nat, trees: map<nat, Storage>) {
    host.tree == t && t in trees && host.view in views && views[host.view] == trees[t]
  }

  ghost predicate HoldsTrees(hosts: seq<Host>, views: map<nat, Storage>, declared: seq<nat>,
                             trees: map<nat, Storage>) {
    |hosts| == |declared| && forall k | 0 <= k < |hosts| :: HoldsTree(hosts[k], views, declared[k], trees)
  }

  lemma CommitHost(s: Band, input: Input, k: nat)
    requires (forall t | t in input.declared :: t in s.trees) && k < |input.declared|
    ensures |Commit(s, input).hosts| == |input.declared|
    ensures Commit(s, input).hosts[k] == Host(input.declared[k], s.next + k)
  {
  }

  /** The view taken for the k-th declared tree holds what the tree has. */
  lemma CommitNewViewOf(s: Band, input: Input, k: nat)
    requires (forall t | t in input.declared :: t in s.trees) && k < |input.declared| && s.next + k !in OwnViews(s)
    ensures HoldsTree(Host(input.declared[k], s.next + k), Commit(s, input).views, input.declared[k], s.trees)
  {
    NewViewHolds(s, input, k);
  }

  lemma HostsHoldTheirTrees(s: Band, others: map<nat, Storage>, input: Input)
    requires OwnsExactly(s, others) && forall t | t in input.declared :: t in s.trees
    ensures var c := Commit(s, input); HoldsTrees(c.hosts, c.views, input.declared, s.trees)
  {
    var hosts, views := Commit(s, input).hosts, Commit(s, input).views;
    assert |hosts| == |input.declared|;
    forall k | 0 <= k < |hosts| ensures HoldsTree(hosts[k], views, input.declared[k], s.trees) {
      NewIsNotOwn(s, others, s.next + k);
      CommitNewViewOf(s, input, k);
      CommitHost(s, input, k);
    }
  }

  lemma RecordNamesItsTree(solved: Record, hosts: seq<Host>, views: map<nat, Storage>, declared: seq<nat>,
                           trees: map<nat, Storage>)
    requires HoldsTrees(hosts, views, declared, trees)
    requires solved.host == NoTree || (solved.host.Live? && solved.host.tree in declared)
    ensures NamesItsTree(solved, WithView(solved, hosts), hosts, views, trees)
  {
    WithViewNamesView(solved, hosts);
    if solved.host.Live? {
      var i :| 0 <= i < |declared| && declared[i] == solved.host.tree;
      assert HoldsTree(hosts[i], views, solved.host.tree, trees);
      var view := WithView(solved, hosts).host.view;
      var k :| 0 <= k < |hosts| && hosts[k] == Host(solved.host.tree, view);
      assert HoldsTree(hosts[k], views, declared[k], trees);
    }
  }

  lemma {:induction false} ViewForHost(tree: nat, hosts: seq<Host>) returns (k: nat)
    requires exists i :: 0 <= i < |hosts| && hosts[i].tree == tree
    ensures k < |hosts| && hosts[k] == Host(tree, ViewFor(tree, hosts))
    decreases |hosts|
  {
    if hosts[0].tree == tree {
      k := 0;
    } else {
      var i :| 0 <= i < |hosts| && hosts[i].tree == tree;
      assert hosts[1..][i - 1].tree == tree;
      k := ViewForHost(tree, hosts[1..]);
      k := k + 1;
    }
  }

  /** What a view of the old band holds among the new views. */
  lemma OldView(s: Band, others: map<nat, Storage>, input: Input, v: nat)
    requires OwnsExactly(s, others) && (forall t | t in input.declared :: t in s.trees) && v in OwnViews(s)
    ensures v in s.views && v < s.next && v in NewViews(s, input) && NewViews(s, input)[v] == s.views[v]
  {
  }

  /** Which views are the band's after a commit, and which old ones stay. */
  lemma CommitMembers(s: Band, others: map<nat, Storage>, input: Input, v: nat)
    requires OwnsExactly(s, others) && forall t | t in input.declared :: t in s.trees
    ensures var c := Commit(s, input);
            && (v in OwnViews(c) <==> v in c.retired || s.next <= v < c.next)
            && (v in c.retired <==> v in OwnViews(s) && Stays(v, c.hosts, NewViews(s, input), s.clay))
  {
    RetireIsFilter(OwnViews(s), Commit(s, input).hosts, NewViews(s, input), s.clay);
    OwnAfter(s, input, v);
  }

  /** A view taken by the frame holds what its tree holds. */
  lemma CommitNewView(s: Band, others: map<nat, Storage>, input: Input, v: nat)
    requires OwnsExactly(s, others) && (forall t | t in input.declared :: t in s.trees)
    requires s.next <= v < s.next + |input.declared|
    ensures var c := Commit(s, input); v in c.views && c.views[v] == s.trees[input.declared[v - s.next]]
  {
    NewIsNotOwn(s, others, v);
    NewViewInViews(s, input, v);
  }

  lemma NewIsNotOwn(s: Band, others: map<nat, Storage>, v: nat)
    requires OwnsExactly(s, others) && s.next <= v
    ensures v !in OwnViews(s)
  {
  }

  lemma NewViewInViews(s: Band, input: Input, v: nat)
    requires (forall t | t in input.declared :: t in s.trees) && v !in OwnViews(s)
             && s.next <= v < s.next + |input.declared|
    ensures var c := Commit(s, input); v in c.views && c.views[v] == s.trees[input.declared[v - s.next]]
  {
    var views := NewViews(s, input);
    assert v in views && views[v] == s.trees[input.declared[v - s.next]];
  }

  /** A retired view holds what it held. */
  lemma CommitOldView(s: Band, others: map<nat, Storage>, input: Input, v: nat)
    requires OwnsExactly(s, others) && (forall t | t in input.declared :: t in s.trees) && v in Commit(s, input).retired
    ensures v in OwnViews(s) && v in s.views && v in Commit(s, input).views && Commit(s, input).views[v] == s.views[v]
  {
    CommitMembers(s, others, input, v);
    OldView(s, others, input, v);
  }

  /** A view whose storage no host of the frame has is retired, and holds it still. */
  lemma RetiredViewHolds(s: Band, others: map<nat, Storage>, input: Input, v: nat)
    requires OwnsExactly(s, others) && forall t | t in input.declared :: t in s.trees
    requires v in OwnViews(s) && Stays(v, Commit(s, input).hosts, NewViews(s, input), s.clay)
    ensures v in s.views && HeldIn(Commit(s, input), s.views[v])
  {
    CommitMembers(s, others, input, v);
    CommitOldView(s, others, input, v);
    HeldByView(Commit(s, input), v);
  }

  lemma NewViewHolds(s: Band, input: Input, k: nat)
    requires (forall t | t in input.declared :: t in s.trees) && k < |input.declared|
    ensures s.next + k in NewViews(s, input) && NewViews(s, input)[s.next + k] == s.trees[input.declared[k]]
  {
    assert s.next + k - s.next == k;
  }

  lemma SharerAt(v: nat, hosts: seq<Host>, views: map<nat, Storage>) returns (i: nat)
    requires Shares(v, hosts, views)
    ensures v in views && i < |hosts| && hosts[i].view in views && views[hosts[i].view] == views[v]
  {
    i :| 0 <= i < |hosts| && hosts[i].view in views && views[hosts[i].view] == views[v];
  }

  lemma SharerTree(s: Band, input: Input, v: nat) returns (t: nat)
    requires forall t | t in input.declared :: t in s.trees
    requires Shares(v, NextHosts(input.declared, s.next), NewViews(s, input))
    ensures t in input.declared && s.trees[t] == NewViews(s, input)[v]
  {
    var hosts, views := NextHosts(input.declared, s.next), NewViews(s, input);
    var i := SharerAt(v, hosts, views);
    assert hosts[i] == Host(input.declared[i], s.next + i);
    NewViewHolds(s, input, i);
    t := input.declared[i];
    assert views[v] == views[s.next + i];
  }

  /** A view that shares its storage with a host leaves it to the host's new view. */
  lemma SharedViewHolds(s: Band, others: map<nat, Storage>, input: Input, v: nat)
    requires OwnsExactly(s, others) && forall t | t in input.declared :: t in s.trees
    requires v in OwnViews(s) && Shares(v, NextHosts(input.declared, s.next), NewViews(s, input))
    ensures v in s.views && HeldIn(Commit(s, input), s.views[v])
  {
    OldView(s, others, input, v);
    var t := SharerTree(s, input, v);
    DeclaredIsHeld(s, others, input, t);
  }

  lemma OldViewStaysHeld(s: Band, others: map<nat, Storage>, input: Input, v: nat)
    requires OwnsExactly(s, others) && forall t | t in input.declared :: t in s.trees
    requires v in OwnViews(s) && v in s.views && s.views[v] in s.clay
    ensures HeldIn(Commit(s, input), s.views[v])
  {
    OldView(s, others, input, v);
    if Shares(v, NextHosts(input.declared, s.next), NewViews(s, input)) {
      SharedViewHolds(s, others, input, v);
    } else {
      RetiredViewHolds(s, others, input, v);
    }
  }

  /** A view from before a commit stays, retired, if and only if Clay points into what it
      holds and no declared tree has that. */
  lemma RetiredExactly(s: Band, others: map<nat, Storage>, input: Input, v: nat)
    requires OwnsExactly(s, others) && (forall t | t in input.declared :: t in s.trees) && v in OwnViews(s)
    ensures v in s.views
    ensures v in Commit(s, input).retired <==>
              s.views[v] in s.clay && !StorageOf(input.declared, s.trees, s.views[v])
  {
    var hosts, views := NextHosts(input.declared, s.next), NewViews(s, input);
    OldView(s, others, input, v);
    CommitMembers(s, others, input, v);
    if Shares(v, hosts, views) {
      var t := SharerTree(s, input, v);
      assert t in s.trees;
    } else if StorageOf(input.declared, s.trees, s.views[v]) {
      SharesItsStorage(s, input, v);
    }
  }

  lemma SharesItsStorage(s: Band, input: Input, v: nat)
    requires (forall t | t in input.declared :: t in s.trees) && v in NewViews(s, input)
    requires StorageOf(input.declared, s.trees, NewViews(s, input)[v])
    ensures Shares(v, NextHosts(input.declared, s.next), NewViews(s, input))
  {
    var hosts, views := NextHosts(input.declared, s.next), NewViews(s, input);
    var t :| t in input.declared && t in s.trees && s.trees[t] == views[v];
    var k :| 0 <= k < |input.declared| && input.declared[k] == t;
    NewViewHolds(s, input, k);
    assert hosts[k].view == s.next + k;
  }

  lemma HeldAfterCommit(s: Band, others: map<nat, Storage>, input: Input, p: Storage)
    requires OwnsExactly(s, others) && (forall t | t in input.declared :: t in s.trees) && p in s.clay
    requires HeldIn(s, p) || StorageOf(input.declared, s.trees, p)
    ensures HeldIn(Commit(s, input), p)
  {
    if HeldIn(s, p) {
      var v :| v in OwnViews(s) && v in s.views && s.views[v] == p;
      OldViewStaysHeld(s, others, input, v);
    } else {
      var t :| t in input.declared && t in s.trees && s.trees[t] == p;
      DeclaredIsHeld(s, others, input, t);
    }
  }

  lemma HeldByView(b: Band, v: nat)
    requires v in OwnViews(b) && v in b.views
    ensures HeldIn(b, b.views[v])
  {
  }

  lemma NewViewIsHeld(s: Band, others: map<nat, Storage>, input: Input, k: nat)
    requires OwnsExactly(s, others) && (forall t | t in input.declared :: t in s.trees) && k < |input.declared|
    ensures HeldIn(Commit(s, input), s.trees[input.declared[k]])
  {
    var v := s.next + k;
    CommitMembers(s, others, input, v);
    CommitNewView(s, others, input, v);
    HeldByView(Commit(s, input), v);
    assert v - s.next == k;
  }

  lemma DeclaredIsHeld(s: Band, others: map<nat, Storage>, input: Input, t: nat)
    requires OwnsExactly(s, others) && (forall t | t in input.declared :: t in s.trees) && t in input.declared
    ensures HeldIn(Commit(s, input), s.trees[t])
  {
    var k :| 0 <= k < |input.declared| && input.declared[k] == t;
    NewViewIsHeld(s, others, input, k);
  }

  lemma HeldBeforeCommit(s: Band, others: map<nat, Storage>, input: Input, p: Storage)
    requires OwnsExactly(s, others) && (forall t | t in input.declared :: t in s.trees)
    requires HeldIn(Commit(s, input), p)
    ensures HeldIn(s, p) || StorageOf(input.declared, s.trees, p)
  {
    var c := Commit(s, input);
    var v :| v in OwnViews(c) && v in c.views && c.views[v] == p;
    CommitMembers(s, others, input, v);
    if v in c.retired {
      CommitOldView(s, others, input, v);
    } else {
      CommitNewView(s, others, input, v);
      assert input.declared[v - s.next] in input.declared;
    }
  }

  /** A storage that Clay points into is held after a commit if and only if, when the
      holds were taken, a declared tree or a view from before had it. */
  lemma CommitHolds(s: Band, others: map<nat, Storage>, input: Input, p: Storage)
    requires OwnsExactly(s, others) && (forall t | t in input.declared :: t in s.trees) && p in s.clay
    ensures HeldIn(Commit(s, input), p)
            <==> HeldIn(s, p) || StorageOf(input.declared, s.trees, p)
  {
    if HeldIn(Commit(s, input), p) {
      HeldBeforeCommit(s, others, input, p);
    } else if HeldIn(s, p) || StorageOf(input.declared, s.trees, p) {
      HeldAfterCommit(s, others, input, p);
    }
  }

  lemma CoveredIffQuiet(b: Band, others: map<nat, Storage>, input: Input)
    requires OwnsExactly(b, others) && ValidInput(b, input)
    ensures Covered(Commit(Solved(b, input), input)) <==> QuietSolve(b, input)
  {
    var s := Solved(b, input);
    assert OwnViews(s) == OwnViews(b);
    forall p | p in input.clay
      ensures HeldIn(Commit(s, input), p) <==> HeldIn(b, p) || StorageOf(input.declared, s.trees, p)
    {
      CommitHolds(s, others, input, p);
    }
  }

  /** A commit keeps the invariant if and only if the handlers of the solve leave
      alone what Clay points into and only the declared trees hold. */
  lemma CommitKeepsInvIffQuiet(b: Band, others: map<nat, Storage>, input: Input)
    requires Inv(b, others) && ValidInput(b, input) && Frame(b, input).1
    ensures Inv(Frame(b, input).0, others) <==> QuietSolve(b, input)
  {
    var s := Solved(b, input);
    var c := Commit(s, input);
    assert Frame(b, input).0 == c && OwnViews(s) == OwnViews(b);
    CoveredIffQuiet(b, others, input);
    CommitOwnsExactly(s, others, input);
    CommitRecordsHeld(b, input);
    CommitViews(s, others, input);
    BytesSameViews(c.retired, NewViews(s, input), c.views);
  }

  /** Without edits from the handlers of the solve there is nothing to break. */
  lemma NoEditsIsQuiet(b: Band, others: map<nat, Storage>, input: Input)
    requires Inv(b, others) && ValidInput(b, input) && input.edits == []
    ensures QuietSolve(b, input)
  {
  }

  /** A handler of the solve that replaces a tree declared for the first time: Clay
      is left pointing into arrays that nobody holds. */
  lemma EditDuringFirstSolveUncovers(a: Storage, b: Storage)
    requires a != b && a.bytes <= RETIRED_MAX
    ensures var band := Band([], [], [], [], [], true, {}, map[0 := a], map[], 0);
            var input := Input(false, [], map[], true, [0], [], [], {a}, [(0, b)], true, true, true, None);
            && Inv(band, map[]) && ValidInput(band, input) && Frame(band, input).1
            && !Covered(Frame(band, input).0)
  {
    var band := Band([], [], [], [], [], true, {}, map[0 := a], map[], 0);
    var input := Input(false, [], map[], true, [0], [], [], {a}, [(0, b)], true, true, true, None);
    assert Edited(band.trees, input.edits) == map[0 := b] by {
      assert input.edits[..0] == [];
    }
    assert 0 in input.declared && band.trees[0] == a;
    assert OwnViews(band) == [];
    assert !HeldIn(band, a) && !StorageOf(input.declared, map[0 := b], a);
    CoveredIffQuiet(band, map[], input);
  }

  // --- whole runs ---

  /** A frame, a widget tree replaced between frames, the Lua state going away, or another
      output taking or giving up a view of its own. */
  datatype Step =
    | FrameStep(input: Input) | Edit(tree: nat, storage: Storage) | StateClear
    | OtherHolds(tree: nat) | OtherReleases(view: nat)

  /** declare_state_clear and declare_band_wipe, for one band. */
  function Clear(b: Band): Band {
    b.(hosts := [], retired := [], records := [], handles := [], owners := ReleaseOwners(b.owners, 0, []).0,
       contextValid := false, clay := {},
       views := map v | v in b.views && v !in OwnViews(b) :: b.views[v])
  }

  ghost predicate ValidStep(b: Band, others: map<nat, Storage>, step: Step) {
    match step
    case FrameStep(input) => ValidInput(b, input) && (Frame(b, input).1 ==> QuietSolve(b, input))
    case OtherHolds(t) => t in b.trees
    case OtherReleases(v) => v in others
    case _ => true
  }

  function Take(b: Band, others: map<nat, Storage>, step: Step): (Band, map<nat, Storage>)
    requires ValidStep(b, others, step)
  {
    match step
    case FrameStep(input) => (Frame(b, input).0, others)
    case Edit(t, p) => (b.(trees := b.trees[t := p]), others)
    case StateClear => (Clear(b), others)
    case OtherHolds(t) => (b.(views := b.views[b.next := b.trees[t]], next := b.next + 1), others[b.next := b.trees[t]])
    case OtherReleases(v) => (b.(views := b.views - {v}), others - {v})
  }

  ghost predicate Reaches(b: Band, others: map<nat, Storage>, steps: seq<Step>, r: Band, rothers: map<nat, Storage>)
    decreases |steps|
  {
    if steps == [] then r == b && rothers == others
    else
      && ValidStep(b, others, steps[0])
      && var n := Take(b, others, steps[0]); Reaches(n.0, n.1, steps[1..], r, rothers)
  }

  lemma StepKeepsInv(b: Band, others: map<nat, Storage>, step: Step)
    requires Inv(b, others) && ValidStep(b, others, step)
    ensures Inv(Take(b, others, step).0, Take(b, others, step).1)
  {
    var n := Take(b, others, step);
    match step
    case FrameStep(input) =>
      if Frame(b, input).1 {
        CommitKeepsInvIffQuiet(b, others, input);
      } else {
        FailedFrameRestores(b, input);
        assert OwnViews(n.0) == OwnViews(b);
      }
    case Edit(t, p) => assert OwnViews(n.0) == OwnViews(b);
    case StateClear => assert OwnViews(Clear(b)) == [];
    case _ => OthersKeepInv(b, others, step);
  }

  /** What other outputs hold and release touches no view of this one. */
  lemma OthersKeepInv(b: Band, others: map<nat, Storage>, step: Step)
    requires Inv(b, others) && ValidStep(b, others, step) && (step.OtherHolds? || step.OtherReleases?)
    ensures Inv(Take(b, others, step).0, Take(b, others, step).1)
  {
    var n := Take(b, others, step).0;
    assert OwnViews(n) == OwnViews(b);
    forall v | v in OwnViews(b) ensures v in b.views && v in n.views && n.views[v] == b.views[v] {
      assert v in b.views && v < b.next;
    }
    forall p | p in n.clay ensures HeldIn(n, p) {
      assert HeldIn(b, p);
      var v :| v in OwnViews(b) && v in b.views && b.views[v] == p;
      assert v in OwnViews(n) && v in n.views && n.views[v] == p;
    }
    forall v | v in b.retired ensures v in b.views && v in n.views && b.views[v] == n.views[v] {
      assert v in OwnViews(b);
    }
    BytesSameViews(b.retired, b.views, n.views);
  }

  /** Over every run of committed and failed frames, edits, state changes, and holds and
      releases by other outputs: what Clay points into is held, every hold has one owner,
      and what is retained only for Clay stays within the limit. */
  lemma {:induction false} RunsKeepInv(b: Band, others: map<nat, Storage>, steps: seq<Step>,
                                       r: Band, rothers: map<nat, Storage>)
    requires Inv(b, others) && Reaches(b, others, steps, r, rothers)
    ensures Inv(r, rothers)
    decreases |steps|
  {
    if steps != [] {
      StepKeepsInv(b, others, steps[0]);
      var n := Take(b, others, steps[0]);
      RunsKeepInv(n.0, n.1, steps[1..], r, rothers);
    }
  }

  /** When the band is wiped, every view it ever held has been released. */
  lemma WipeReleasesAll(b: Band, others: map<nat, Storage>)
    requires Inv(b, others)
    ensures Clear(b).views == others
    ensures Clear(b).owners == [] && Clear(b).hosts == [] && Clear(b).retired == [] && Clear(b).records == []
            && Clear(b).handles == []
    ensures !Clear(b).contextValid && Clear(b).clay == {} && Clear(b).trees == b.trees
  {
    assert Clear(b).views.Keys == others.Keys;
    NoOwnerKept(b.owners);
  }

  lemma {:induction false} NoOwnerKept(owners: seq<nat>)
    ensures ReleaseOwners(owners, 0, []).0 == []
    decreases |owners|
  {
    if owners != [] {
      var n := |owners| - 1;
      NoOwnerKept(owners[0 := owners[n]][..n]);
    }
  }
}

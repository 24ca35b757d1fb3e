/** The frame as it runs: loops over the band's arrays, holds and releases. */
module FrameRun {
  import opened Options
  import opened FrameSpec

  class Output {
    var hosts: seq<Host>
    var retired: seq<nat>
    var records: seq<Record>
    var handles: seq<nat>          // command_handles
    var owners: seq<nat>           // exit_owners, each with one registry reference
    var contextValid: bool
    var clay: set<Storage>
    var trees: map<nat, Storage>
    var views: map<nat, Storage>
    var next: nat

    ghost function Model(): Band
      reads this
    {
      Band(hosts, retired, records, handles, owners, contextValid, clay, trees, views, next)
    }

    constructor (b: Band)
      ensures Model() == b
    {
      hosts, retired, records, handles, owners := b.hosts, b.retired, b.records, b.handles, b.owners;
      contextValid, clay, trees, views, next := b.contextValid, b.clay, b.trees, b.views, b.next;
    }

    /** An owner already held keeps its one reference; a handle that resolves to nothing,
        or to neither a client nor a drawin, is not held. */
    method HoldExitOwner(handle: nat, kinds: map<nat, OwnerKind>)
      modifies this`owners
      ensures owners == HoldOwners(old(owners), [handle], kinds)
      ensures owners == if handle in old(owners) || handle !in kinds || kinds[handle] == OtherOwner then old(owners)
                        else old(owners) + [handle]
    {
      assert [handle][..0] == [];
      for i := 0 to |owners|
        invariant handle !in owners[..i]
      {
        if owners[i] == handle { return; }
      }
      assert owners[..|owners|] == owners;
      if handle !in kinds || kinds[handle] == OtherOwner { return; }
      owners := owners + [handle];
    }

    method HoldExitOwners(exits: seq<nat>, kinds: map<nat, OwnerKind>)
      modifies this`owners
      ensures owners == HoldOwners(old(owners), exits, kinds)
    {
      for k := 0 to |exits|
        invariant owners == HoldOwners(old(owners), exits[..k], kinds)
      {
        assert exits[..k + 1][..k] == exits[..k];
        assert [exits[k]][..0] == [];
        HoldExitOwner(exits[k], kinds);
      }
      assert exits[..|exits|] == exits;
    }

    /** Drop the owners no command names, moving the last one into the gap. */
    method ReleaseExitOwners(used: seq<nat>) returns (released: seq<nat>)
      modifies this`owners
      ensures (owners, released) == ReleaseOwners(old(owners), 0, used)
    {
      released := [];
      var i := 0;
      ghost var all := ReleaseOwners(owners, 0, used);
      ghost var rest := all;
      assert [] + rest.1 == rest.1;
      while i < |owners|
        invariant i <= |owners|
        invariant rest == ReleaseOwners(owners, i, used)
        invariant all.0 == rest.0 && all.1 == released + rest.1
        decreases |owners| - i
      {
        if owners[i] in used {
          i := i + 1;
        } else {
          var gone := owners[i];
          var n := |owners| - 1;
          owners := owners[i := owners[n]][..n];
          rest := ReleaseOwners(owners, i, used);
          assert released + ([gone] + rest.1) == released + [gone] + rest.1;
          released := released + [gone];
        }
      }
      assert released + [] == released;
    }

    /** widget_tree_hold: a new view of the tree's storage. */
    method Hold(tree: nat) returns (view: nat)
      requires tree in trees
      modifies this`views, this`next
      ensures view == old(next) && next == view + 1 && views == old(views)[view := trees[tree]]
    {
      view := next;
      views := views[view := trees[tree]];
      next := next + 1;
    }

    method Release(view: nat)
      requires view in views
      modifies this`views
      ensures views == old(views) - {view}
    {
      views := views - {view};
    }

    method SharesPayload(view: nat, hs: seq<Host>) returns (r: bool)
      ensures r == Shares(view, hs, views)
    {
      if view !in views { return false; }
      for i := 0 to |hs|
        invariant forall j | 0 <= j < i :: !(hs[j].view in views && views[hs[j].view] == views[view])
      {
        if hs[i].view in views && views[hs[i].view] == views[view] { return true; }
      }
      r := false;
    }

    /** Hold every declared tree, up to the hold that fails. */
    method HoldAll(declared: seq<nat>, count: nat) returns (hs: seq<Host>)
      requires count <= |declared| && forall t | t in declared :: t in trees
      modifies this`views, this`next
      ensures hs == NextHosts(declared[..count], old(next)) && next == old(next) + count
      ensures views == HeldViews(old(views), trees, declared[..count], old(next))
    {
      hs := [];
      for i := 0 to count
        invariant hs == NextHosts(declared[..i], old(next)) && next == old(next) + i
        invariant views == HeldViews(old(views), trees, declared[..i], old(next))
      {
        assert declared[..i + 1][..i] == declared[..i];
        var v := Hold(declared[i]);
        hs := hs + [Host(declared[i], v)];
      }
    }

    /** The failed label releases what was held so far. */
    method ReleaseHosts(hs: seq<Host>, ghost before: map<nat, Storage>, ghost first: nat)
      requires forall i | 0 <= i < |hs| :: hs[i].view == first + i
      requires forall v :: v in views <==> v in before || first <= v < first + |hs|
      requires forall v | v in before :: v < first && views[v] == before[v]
      modifies this`views
      ensures views == before
    {
      for i := 0 to |hs|
        invariant forall v :: v in views <==> v in before || first + i <= v < first + |hs|
        invariant forall v | v in before :: views[v] == before[v]
      {
        Release(hs[i].view);
      }
      assert views.Keys == before.Keys;
    }

    /** One old view: kept if it stays, with the bytes kept so far. */
    method Consider(view: nat, hs: seq<Host>, keep: seq<nat>, bytes: nat) returns (kept: seq<nat>, total: nat)
      requires bytes == Bytes(keep, views)
      ensures kept == keep + (if Stays(view, hs, views, clay) then [view] else [])
      ensures total == Bytes(kept, views)
    {
      var shared := SharesPayload(view, hs);
      kept, total := keep, bytes;
      if view in views && !shared && views[view] in clay {
        BytesSnoc(keep, view, views);
        kept, total := keep + [view], bytes + views[view].bytes;
      }
    }

    /** The views of a list that stay; false when they exceed the limit. */
    method RetireFrom(all: seq<nat>, hs: seq<Host>) returns (ok: bool, keep: seq<nat>)
      ensures ok == (Bytes(Retire(all, hs, views, clay), views) <= RETIRED_MAX)
      ensures ok ==> keep == Retire(all, hs, views, clay)
    {
      var bytes, i := 0, 0;
      keep := [];
      while i < |all|
        invariant 0 <= i <= |all| && keep == Retire(all[..i], hs, views, clay)
        invariant bytes == Bytes(keep, views) <= RETIRED_MAX
      {
        RetireNext(all, i, hs, views, clay);
        keep, bytes := Consider(all[i], hs, keep, bytes);
        i := i + 1;
        if bytes > RETIRED_MAX {
          ok := false;
          BytesGrow(all, i, hs, views, clay);
          return;
        }
      }
      assert all[..|all|] == all;
      ok := true;
    }

    /** Choose the old views that stay. */
    method RetireViews(hs: seq<Host>) returns (ok: bool, keep: seq<nat>)
      ensures ok == (Bytes(Retire(OwnViews(Model()), hs, views, clay), views) <= RETIRED_MAX)
      ensures ok ==> keep == Retire(OwnViews(Model()), hs, views, clay)
    {
      ok, keep := RetireFrom(retired + ViewsOf(hosts), hs);
    }

    /** Release the old views that do not stay. */
    method ReleaseOld(keep: seq<nat>, ghost before: map<nat, Storage>)
      requires views == before && Distinct(OwnViews(Model()))
      requires forall v | v in OwnViews(Model()) :: v in views
      modifies this`views
      ensures views == map v | v in before && (v in keep || v !in OwnViews(old(Model()))) :: before[v]
    {
      var all := retired + ViewsOf(hosts);
      for i := 0 to |all|
        invariant views == map v | v in before && (v in keep || v !in all[..i]) :: before[v]
      {
        assert all[..i + 1] == all[..i] + [all[i]];
        assert all[i] in all && all[i] !in all[..i];
        if all[i] !in keep {
          Release(all[i]);
        }
      }
      assert all[..|all|] == all;
    }

    method WriteViews(rs: seq<Record>, hs: seq<Host>) returns (out: seq<Record>)
      ensures out == WithViews(rs, hs)
      ensures |out| == |rs| && forall i | 0 <= i < |rs| :: NamesView(rs[i], out[i], hs)
    {
      out := [];
      for i := 0 to |rs|
        invariant out == WithViews(rs, hs)[..i]
      {
        var r := rs[i];
        if r.host.Live? {
          var j := 0;
          while j < |hs| && hs[j].tree != r.host.tree
            invariant j <= |hs| && forall k | 0 <= k < j :: hs[k].tree != r.host.tree
          {
            j := j + 1;
          }
          if j < |hs| {
            ViewForFirst(r.host.tree, hs, j);
            r := r.(host := Held(hs[j].view));
          }
        }
        assert r == WithView(rs[i], hs);
        out := out + [r];
      }
      forall i | 0 <= i < |rs| ensures NamesView(rs[i], out[i], hs) {
        WithViewNamesView(rs[i], hs);
      }
    }

    method StartOver()
      modifies this`contextValid, this`clay
      ensures !contextValid && clay == {}
    {
      contextValid, clay := false, {};
    }

    /** Everything after the last failure, with the declared trees held. */
    method Install(input: Input, hs: seq<Host>, keep: seq<nat>, ghost s: Band, ghost others: map<nat, Storage>)
      requires OwnsExactly(s, others) && forall t | t in input.declared :: t in s.trees
      requires Model() == s.(views := NewViews(s, input), next := s.next + |input.declared|)
      requires hs == NextHosts(input.declared, s.next) && keep == RetiredViews(s, input)
      modifies this
      ensures Model() == Commit(s, input)
    {
      OwnedAmongNew(s, others, input);
      assert OwnViews(Model()) == OwnViews(s);
      ReleaseOld(keep, NewViews(s, input));
      CommittedViews(s, input, hs, keep);
      WriteFrame(input, hs, keep);
    }

    method WriteFrame(input: Input, hs: seq<Host>, keep: seq<nat>)
      modifies this
      ensures hosts == hs && retired == keep && records == WithViews(input.records, hs) && handles == input.handles
      ensures owners == ReleaseOwners(old(owners), 0, input.handles).0
      ensures contextValid && clay == old(clay) && trees == old(trees) && views == old(views) && next == old(next)
    {
      retired, hosts := keep, hs;
      records := WriteViews(input.records, hs);
      handles := input.handles;
      var _ := ReleaseExitOwners(input.handles);
      contextValid := true;
    }

    /** Hold the declared trees and choose what stays; on failure undo the holds. */
    method HoldFrame(input: Input, ghost s: Band, ghost others: map<nat, Storage>)
      returns (ok: bool, hs: seq<Host>, keep: seq<nat>)
      requires Model() == s && OwnsExactly(s, others) && forall t | t in input.declared :: t in s.trees
      modifies this`views, this`next
      ensures ok == (Holds(input) == |input.declared| && input.retiredAllocated
                     && Bytes(RetiredViews(s, input), NewViews(s, input)) <= RETIRED_MAX)
      ensures next == s.next + Holds(input)
      ensures if ok then
                views == NewViews(s, input) && hs == NextHosts(input.declared, s.next) && keep == RetiredViews(s, input)
              else views == s.views
    {
      var count := Holds(input);
      keep := [];
      hs := HoldAll(input.declared, count);
      ok := count == |input.declared| && input.retiredAllocated;
      if ok {
        assert input.declared[..count] == input.declared;
        assert OwnViews(Model()) == OwnViews(s);
        ok, keep := RetireViews(hs);
      }
      if !ok {
        ReleaseHosts(hs, s.views, s.next);
      }
    }

    /** The part of the frame after the solve. */
    method Finish(input: Input, ghost s: Band, ghost others: map<nat, Storage>) returns (ok: bool)
      requires Model() == s && OwnsExactly(s, others) && forall t | t in input.declared :: t in s.trees
      modifies this
      ensures ok == (input.handlesAllocated && input.hostsAllocated && Holds(input) == |input.declared|
                     && input.retiredAllocated && Bytes(RetiredViews(s, input), NewViews(s, input)) <= RETIRED_MAX)
      ensures Model() == if ok then Commit(s, input)
                         else Fail(s, if input.handlesAllocated && input.hostsAllocated then Holds(input) else 0)
    {
      if !input.handlesAllocated || !input.hostsAllocated {
        StartOver();
        return false;
      }
      var hs, keep;
      ok, hs, keep := HoldFrame(input, s, others);
      if ok {
        Install(input, hs, keep, s, others);
      } else {
        StartOver();
      }
    }

    /** declare_output_frame */
    method Frame(input: Input, ghost others: map<nat, Storage>) returns (ok: bool)
      requires Inv(Model(), others) && ValidInput(Model(), input)
      modifies this
      ensures (Model(), ok) == FrameSpec.Frame(old(Model()), input)
    {
      if input.early {
        StartOver();
        return false;
      }
      HoldExitOwners(input.exits, input.kinds);
      if !input.solved {
        StartOver();
        return false;
      }
      clay, trees := input.clay, Edited(trees, input.edits);
      ghost var s := Model();
      assert s == Solved(old(Model()), input) && OwnViews(s) == OwnViews(old(Model()));
      ok := Finish(input, s, others);
    }
  }

  lemma CommittedViews(s: Band, input: Input, hs: seq<Host>, keep: seq<nat>)
    requires forall t | t in input.declared :: t in s.trees
    requires hs == NextHosts(input.declared, s.next) && keep == RetiredViews(s, input)
    ensures Commit(s, input).views
            == map v | v in NewViews(s, input) && (v in keep || v !in OwnViews(s)) :: NewViews(s, input)[v]
    ensures Commit(s, input).hosts == hs && Commit(s, input).retired == keep
  {
  }

  lemma OwnedAmongNew(s: Band, others: map<nat, Storage>, input: Input)
    requires OwnsExactly(s, others) && forall t | t in input.declared :: t in s.trees
    ensures forall v | v in OwnViews(s) :: v in NewViews(s, input)
  {
  }

  lemma {:induction false} RetireNext(all: seq<nat>, i: nat, hs: seq<Host>, views: map<nat, Storage>,
                                      clay: set<Storage>)
    requires i < |all|
    ensures Retire(all[..i + 1], hs, views, clay)
            == Retire(all[..i], hs, views, clay) + if Stays(all[i], hs, views, clay) then [all[i]] else []
  {
    assert all[..i + 1][..i] == all[..i];
  }

  lemma {:induction false} BytesSnoc(vs: seq<nat>, v: nat, views: map<nat, Storage>)
    ensures Bytes(vs + [v], views) == Bytes(vs, views) + if v in views then views[v].bytes else 0
  {
    assert (vs + [v])[..|vs|] == vs;
  }

  lemma {:induction false} BytesGrow(all: seq<nat>, n: nat, hs: seq<Host>, views: map<nat, Storage>, clay: set<Storage>)
    requires n <= |all|
    ensures Bytes(Retire(all[..n], hs, views, clay), views) <= Bytes(Retire(all, hs, views, clay), views)
    decreases |all| - n
  {
    if n == |all| {
      assert all[..n] == all;
    } else {
      BytesGrow(all, n + 1, hs, views, clay);
      assert all[..n + 1][..n] == all[..n];
      var r := Retire(all[..n], hs, views, clay);
      assert (r + [all[n]])[..|r|] == r;
    }
  }

  lemma {:induction false} ViewForFirst(tree: nat, hs: seq<Host>, j: nat)
    requires j < |hs| && hs[j].tree == tree && forall k | 0 <= k < j :: hs[k].tree != tree
    ensures ViewFor(tree, hs) == hs[j].view
    decreases j
  {
    if j > 0 { ViewForFirst(tree, hs[1..], j - 1); }
  }
}

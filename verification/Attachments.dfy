/**
 Declaring the popups of a frame: a popup is attached to a widget of something
 declared before it, which may be another popup, so the pass goes over the list
 of drawins again until nothing new could be declared.
 */
module Attachments {

  /** A widget occurrence that resolved to a Clay element this frame. */
  datatype Binding = Binding(identity: nat, occurrence: nat, host: nat, id: nat)

  datatype Drawin = Drawin(
    name: nat,
    declarable: bool,      // declarable_drawin on this output
    kind: nat,             // 0 none, 1 popup, 2 tooltip, 3 launcher, 4 notification
    target: nat,           // identity of the target widget, 0 for none
    occurrence: nat,
    host: nat,             // 0 for any host
    workarea: bool,
    bounded: bool,
    hover: bool,
    binds: seq<Binding>)   // what declaring its widget tree binds

  const BARS_MAX := 4096

  /** What a frame's pass starts from. placed are the authored visible placements
      that attachment_is_ambiguous counts, over the elements under the pointer. */
  datatype Scene = Scene(
    drawins: seq<Drawin>,
    placed: seq<Binding>,
    over: set<nat>,
    workareaId: nat,
    rootId: nat,
    targets: seq<Binding>,
    bars: seq<Drawin>)

  predicate Candidate(d: Drawin) {
    d.kind != 0 && d.kind != 4 && d.declarable
  }

  function Count(placed: seq<Binding>, d: Drawin): nat {
    if placed == [] then 0
    else
      var p := placed[|placed| - 1];
      Count(placed[..|placed| - 1], d) + (if p.identity == d.target && (d.host == 0 || p.host == d.host) then 1 else 0)
  }

  /** attachment_is_ambiguous */
  predicate Ambiguous(sc: Scene, d: Drawin) {
    Count(sc.placed, d) > 1
  }

  /** The widget the popup names is authored to be visible in more than one place. */
  lemma AmbiguousIffTwice(sc: Scene, d: Drawin)
    ensures Ambiguous(sc, d) <==> PlacedTwice(sc.placed, d)
  {
    CountExact(sc.placed, d);
  }

  predicate Places(d: Drawin, b: Binding) {
    b.identity == d.target && (d.host != 0 ==> b.host == d.host)
  }

  predicate PlacedTwice(placed: seq<Binding>, d: Drawin) {
    exists i, j | 0 <= i < j < |placed| :: Places(d, placed[i]) && Places(d, placed[j])
  }

  predicate PlacedOnce(placed: seq<Binding>, d: Drawin) {
    exists i | 0 <= i < |placed| :: Places(d, placed[i])
  }

  lemma {:induction false} CountExact(placed: seq<Binding>, d: Drawin)
    ensures Count(placed, d) > 0 <==> PlacedOnce(placed, d)
    ensures Count(placed, d) > 1 <==> PlacedTwice(placed, d)
    decreases |placed|
  {
    if placed != [] {
      var n := |placed| - 1;
      var init := placed[..n];
      CountExact(init, d);
      if PlacedOnce(init, d) {
        var i :| 0 <= i < n && Places(d, init[i]);
        assert Places(d, placed[i]);
        if Places(d, placed[n]) { assert PlacedTwice(placed, d); }
      }
      if PlacedTwice(init, d) {
        var i, j :| 0 <= i < j < n && Places(d, init[i]) && Places(d, init[j]);
        assert Places(d, placed[i]) && Places(d, placed[j]);
      }
      if PlacedTwice(placed, d) {
        var i, j :| 0 <= i < j <= n && Places(d, placed[i]) && Places(d, placed[j]);
        assert Places(d, init[i]);
        if j < n { assert Places(d, init[j]); }
      }
    }
  }

  predicate Matches(d: Drawin, b: Binding) {
    && b.identity == d.target
    && (d.host == 0 || b.host == d.host)
    && (d.occurrence == 0 || b.occurrence == d.occurrence)
  }

  /** The scan of attachment_target: 0 for no match or for two different elements. */
  function Scan(d: Drawin, targets: seq<Binding>, id: nat): nat {
    if targets == [] then id
    else if Matches(d, targets[0]) then
      (if id != 0 && id != targets[0].id then 0 else Scan(d, targets[1..], targets[0].id))
    else Scan(d, targets[1..], id)
  }

  function Target(sc: Scene, d: Drawin, targets: seq<Binding>): nat {
    if d.occurrence == 0 && Ambiguous(sc, d) then 0 else Scan(d, targets, 0)
  }

  /** The element declare_attachment hangs the popup on, 0 for none. */
  function Parent(sc: Scene, d: Drawin, targets: seq<Binding>): nat {
    if d.kind == 2 && d.target == 0 then 0
    else if (d.kind == 3 && d.bounded) || d.workarea then sc.workareaId
    else if d.target != 0 then Target(sc, d, targets)
    else sc.rootId
  }

  function Binds(ds: seq<Drawin>): seq<Binding> {
    if ds == [] then [] else Binds(ds[..|ds| - 1]) + ds[|ds| - 1].binds
  }

  /** declare_attachment succeeds after the popups in added were declared. */
  predicate CanDeclare(sc: Scene, d: Drawin, added: seq<Drawin>) {
    var parent := Parent(sc, d, sc.targets + Binds(added));
    parent != 0 && |sc.bars| + |added| < BARS_MAX && (d.hover ==> parent in sc.over)
  }

  /** One sweep over the list from slot i. */
  function Sweep(sc: Scene, added: seq<Drawin>, i: nat): (r: seq<Drawin>)
    requires i <= |sc.drawins| && |sc.bars| + |added| <= BARS_MAX
    ensures added <= r && |sc.bars| + |r| <= BARS_MAX
    decreases |sc.drawins| - i
  {
    if i == |sc.drawins| then added
    else
      var d := sc.drawins[i];
      if Candidate(d) && d !in sc.bars + added && CanDeclare(sc, d, added) then Sweep(sc, added + [d], i + 1)
      else Sweep(sc, added, i + 1)
  }

  /** Sweeps until one declares nothing. */
  function Settle(sc: Scene, added: seq<Drawin>): (r: seq<Drawin>)
    requires |sc.bars| + |added| <= BARS_MAX
    ensures added <= r && |sc.bars| + |r| <= BARS_MAX
    decreases BARS_MAX - |sc.bars| - |added|
  {
    var next := Sweep(sc, added, 0);
    if |next| == |added| then added else Settle(sc, next)
  }

  /** The popups a frame declares, in order. */
  function Declared(sc: Scene): seq<Drawin>
    requires |sc.bars| <= BARS_MAX
  {
    Settle(sc, [])
  }

  /** Only declarable drawins that are popups are declared: never one without a kind, and
      never a notification, which another pass declares. */
  lemma OnlyPopupsAreDeclared(sc: Scene, d: Drawin)
    requires |sc.bars| <= BARS_MAX && d in Declared(sc)
    ensures d in sc.drawins && d.declarable && d.kind != 0 && d.kind != 4 && d !in sc.bars
  {
    SettleAddsPopups(sc, []);
  }

  lemma {:induction false} SettleAddsPopups(sc: Scene, added: seq<Drawin>)
    requires |sc.bars| + |added| <= BARS_MAX
    ensures forall d | d in Settle(sc, added) && d !in added ::
              d in sc.drawins && d.declarable && d.kind != 0 && d.kind != 4 && d !in sc.bars
    decreases BARS_MAX - |sc.bars| - |added|
  {
    SweepAddsPopups(sc, added, 0);
    var next := Sweep(sc, added, 0);
    if |next| != |added| { SettleAddsPopups(sc, next); }
  }

  lemma {:induction false} SweepAddsPopups(sc: Scene, added: seq<Drawin>, i: nat)
    requires i <= |sc.drawins| && |sc.bars| + |added| <= BARS_MAX
    ensures forall d | d in Sweep(sc, added, i) && d !in added ::
              d in sc.drawins && d.declarable && d.kind != 0 && d.kind != 4 && d !in sc.bars
    decreases |sc.drawins| - i
  {
    if i < |sc.drawins| {
      var d := sc.drawins[i];
      if Candidate(d) && d !in sc.bars + added && CanDeclare(sc, d, added) {
        SweepAddsPopups(sc, added + [d], i + 1);
      } else {
        SweepAddsPopups(sc, added, i + 1);
      }
    }
  }

  // --- what a popup needs ---

  ghost predicate BoundIn(sc: Scene, b: Binding, s: set<Drawin>) {
    b in sc.targets || exists d :: d in s && b in d.binds
  }

  predicate UsesTarget(d: Drawin) {
    d.target != 0 && !(d.kind == 3 && d.bounded) && !d.workarea
  }

  /** The popup's target is declared already, or bound by a popup in s. */
  ghost predicate Attaches(sc: Scene, d: Drawin, s: set<Drawin>) {
    && Candidate(d)
    && !(d.kind == 2 && d.target == 0)
    && if (d.kind == 3 && d.bounded) || d.workarea then d.hover ==> sc.workareaId in sc.over
       else if d.target == 0 then d.hover ==> sc.rootId in sc.over
       else
         && (d.occurrence == 0 ==> !Ambiguous(sc, d))
         && exists b :: BoundIn(sc, b, s) && Matches(d, b) && (d.hover ==> b.id in sc.over)
  }

  /** All elements the popup's target names so far are one. */
  ghost predicate Agreed(sc: Scene, d: Drawin, s: set<Drawin>) {
    UsesTarget(d) ==>
      forall a, b | BoundIn(sc, a, s) && BoundIn(sc, b, s) && Matches(d, a) && Matches(d, b) :: a.id == b.id
  }

  function Elements<T>(q: seq<T>): set<T> {
    set x | x in q
  }

  ghost predicate Bindable(sc: Scene, b: Binding) {
    BoundIn(sc, b, Elements(sc.drawins))
  }

  /** The list has no duplicates, the record array has room for it, and no element has
      the id that Clay reserves. */
  ghost predicate WellFormed(sc: Scene) {
    && (forall i, j | 0 <= i < j < |sc.drawins| :: sc.drawins[i] != sc.drawins[j])
    && |sc.bars| + |sc.drawins| <= BARS_MAX
    && sc.workareaId != 0 && sc.rootId != 0
    && forall b | Bindable(sc, b) :: b.id != 0
  }

  lemma {:induction false} BindsOf(ds: seq<Drawin>, b: Binding)
    ensures b in Binds(ds) <==> exists d :: d in ds && b in d.binds
    decreases |ds|
  {
    if ds != [] {
      var n := |ds| - 1;
      BindsOf(ds[..n], b);
      assert ds == ds[..n] + [ds[n]];
      if b in ds[n].binds { assert ds[n] in ds; }
    }
  }

  predicate OneId(d: Drawin, ts: seq<Binding>, id: nat) {
    && (forall a | a in ts && Matches(d, a) :: id != 0 ==> a.id == id)
    && (forall a, b | a in ts && b in ts && Matches(d, a) && Matches(d, b) :: a.id == b.id)
  }

  /** The scan finds an element exactly when there is a match and all matches name one. */
  lemma {:induction false} ScanExact(d: Drawin, ts: seq<Binding>, id: nat)
    requires forall a | a in ts && Matches(d, a) :: a.id != 0
    ensures Scan(d, ts, id) != 0 <==> OneId(d, ts, id) && (id != 0 || exists b :: b in ts && Matches(d, b))
    ensures Scan(d, ts, id) != 0 ==> forall b | b in ts && Matches(d, b) :: Scan(d, ts, id) == b.id
    decreases |ts|
  {
    if ts != [] {
      var head, rest := ts[0], ts[1..];
      assert forall b :: b in ts <==> b == head || b in rest;
      if Matches(d, head) {
        ScanExact(d, rest, head.id);
        ScanKeeps(d, rest, head.id);
      } else {
        ScanExact(d, rest, id);
      }
    }
  }

  /** A scan that has an element ends with it or with nothing. */
  lemma {:induction false} ScanKeeps(d: Drawin, ts: seq<Binding>, id: nat)
    ensures id != 0 ==> Scan(d, ts, id) in {0, id}
    decreases |ts|
  {
    if ts != [] {
      ScanKeeps(d, ts[1..], id);
    }
  }

  lemma {:induction false} TargetsOf(sc: Scene, added: seq<Drawin>, b: Binding)
    ensures b in sc.targets + Binds(added) <==> BoundIn(sc, b, Elements(added))
  {
    BindsOf(added, b);
    if BoundIn(sc, b, Elements(added)) && b !in sc.targets {
      var x :| x in Elements(added) && b in x.binds;
      assert x in added;
    }
  }

  lemma BoundGrows(sc: Scene, b: Binding, s: set<Drawin>, t: set<Drawin>)
    requires s <= t && BoundIn(sc, b, s)
    ensures BoundIn(sc, b, t)
  {
  }

  /** For every scene: a popup is declared at its turn if and only if its target is there
      and names one element. */
  lemma CanDeclareIffAttaches(sc: Scene, d: Drawin, added: seq<Drawin>)
    requires WellFormed(sc) && Candidate(d) && Elements(added) <= Elements(sc.drawins)
    requires |sc.bars| + |added| < BARS_MAX
    ensures CanDeclare(sc, d, added) <==> Attaches(sc, d, Elements(added)) && Agreed(sc, d, Elements(added))
  {
    if UsesTarget(d) {
      var ts, s := sc.targets + Binds(added), Elements(added);
      forall b ensures b in ts <==> BoundIn(sc, b, s) { TargetsOf(sc, added, b); }
      forall b | b in ts ensures b.id != 0 { BoundGrows(sc, b, s, Elements(sc.drawins)); }
      ScanExact(d, ts, 0);
      assert OneId(d, ts, 0) <==> Agreed(sc, d, s);
    }
  }

  /** Attaching is monotone in what is declared, agreeing is the other way. */
  lemma AttachesGrows(sc: Scene, d: Drawin, s: set<Drawin>, t: set<Drawin>)
    requires s <= t
    ensures Attaches(sc, d, s) ==> Attaches(sc, d, t)
    ensures Agreed(sc, d, t) ==> Agreed(sc, d, s)
  {
    if UsesTarget(d) {
      forall b | BoundIn(sc, b, s) ensures BoundIn(sc, b, t) { BoundGrows(sc, b, s, t); }
    }
  }

  // --- the least set of popups ---

  /** s holds every popup of the list that it makes attachable. */
  ghost predicate Closed(sc: Scene, s: set<Drawin>) {
    forall d | d in sc.drawins && d !in sc.bars && Attaches(sc, d, s) :: d in s
  }

  /** Each popup was attachable when its turn came. */
  ghost predicate Justified(sc: Scene, added: seq<Drawin>) {
    && (forall i, j | 0 <= i < j < |added| :: added[i] != added[j])
    && (forall k | 0 <= k < |added| :: added[k] in sc.drawins && added[k] !in sc.bars
                                       && Attaches(sc, added[k], Elements(added[..k])))
  }

  lemma JustifiedSnoc(sc: Scene, added: seq<Drawin>, d: Drawin)
    requires Justified(sc, added) && d in sc.drawins && d !in sc.bars + added && Attaches(sc, d, Elements(added))
    ensures Justified(sc, added + [d]) && Elements(added + [d]) == Elements(added) + {d}
  {
    var more := added + [d];
    forall k | 0 <= k < |more|
      ensures more[k] in sc.drawins && more[k] !in sc.bars && Attaches(sc, more[k], Elements(more[..k]))
    {
      assert more[..k] == if k < |added| then added[..k] else added;
    }
  }

  /** A justified list is inside every set that holds what it makes attachable of it. */
  lemma {:induction false} JustifiedInside(sc: Scene, added: seq<Drawin>, s: set<Drawin>, k: nat)
    requires Justified(sc, added) && k <= |added|
    requires forall d | d in added && Attaches(sc, d, s) :: d in s
    ensures Elements(added[..k]) <= s
    decreases k
  {
    if k > 0 {
      JustifiedInside(sc, added, s, k - 1);
      var d := added[k - 1];
      AttachesGrows(sc, d, Elements(added[..k - 1]), s);
      assert added[..k] == added[..k - 1] + [d];
    }
  }

  lemma InsideClosed(sc: Scene, added: seq<Drawin>, s: set<Drawin>)
    requires Justified(sc, added) && Closed(sc, s)
    ensures Elements(added) <= s
  {
    JustifiedInside(sc, added, s, |added|);
    assert added[..|added|] == added;
  }

  ghost predicate Next(sc: Scene, added: seq<Drawin>, d: Drawin) {
    d in sc.drawins && d !in sc.bars + added && Attaches(sc, d, Elements(added))
  }

  lemma {:induction false} ElementsSize<T>(q: seq<T>)
    requires forall i, j | 0 <= i < j < |q| :: q[i] != q[j]
    ensures |Elements(q)| == |q|
    decreases |q|
  {
    if q != [] {
      var n := |q| - 1;
      ElementsSize(q[..n]);
      assert Elements(q) == Elements(q[..n]) + {q[n]};
    }
  }

  lemma SubsetSize<T>(a: set<T>, b: set<T>)
    requires a <= b
    ensures |a| <= |b| && (a < b ==> |a| < |b|)
  {
    assert b == a + (b - a);
    if a < b { var x :| x in b && x !in a; assert b - a != {}; }
  }

  /** The record array never fills up. */
  lemma RoomLeft(sc: Scene, added: seq<Drawin>, d: Drawin)
    requires WellFormed(sc) && Justified(sc, added) && d in sc.drawins && d !in added
    ensures |sc.bars| + |added| < BARS_MAX && |added| < |sc.drawins|
    ensures Elements(added) <= Elements(sc.drawins)
  {
    ElementsSize(added);
    ElementsSize(sc.drawins);
    SubsetSize(Elements(added), Elements(sc.drawins));
    assert d in Elements(sc.drawins) && d !in Elements(added);
  }

  /** Everything attachable, one popup after another, whatever conflicts arise. */
  ghost function Chain(sc: Scene, added: seq<Drawin>): (r: seq<Drawin>)
    requires WellFormed(sc) && Justified(sc, added)
    ensures Justified(sc, r) && Closed(sc, Elements(r))
    decreases |sc.drawins| - |added|
  {
    if d :| Next(sc, added, d) then
      JustifiedSnoc(sc, added, d);
      RoomLeft(sc, added, d);
      Chain(sc, added + [d])
    else
      assert Closed(sc, Elements(added)) by {
        forall d | d in sc.drawins && d !in sc.bars && Attaches(sc, d, Elements(added)) ensures d in Elements(added) {
          assert !Next(sc, added, d);
        }
      }
      added
  }

  /** The least set that holds every popup it makes attachable. */
  ghost function Attachable(sc: Scene): (r: set<Drawin>)
    requires WellFormed(sc)
    ensures Closed(sc, r) && forall s: set<Drawin> | Closed(sc, s) :: r <= s
  {
    var c := Chain(sc, []);
    assert forall s: set<Drawin> | Closed(sc, s) :: Elements(c) <= s by {
      forall s: set<Drawin> | Closed(sc, s) ensures Elements(c) <= s { InsideClosed(sc, c, s); }
    }
    Elements(c)
  }

  lemma AttachableOnce(sc: Scene, r: set<Drawin>)
    requires WellFormed(sc) && Closed(sc, r) && forall s: set<Drawin> | Closed(sc, s) :: r <= s
    ensures r == Attachable(sc)
  {
  }

  // --- the pass ---

  /** One slot of a sweep: it declares what is attachable and not ambiguous, or nothing. */
  lemma SweepStep(sc: Scene, added: seq<Drawin>, i: nat) returns (next: seq<Drawin>)
    requires WellFormed(sc) && Justified(sc, added) && i < |sc.drawins| && |sc.bars| + |added| <= BARS_MAX
    ensures Justified(sc, next) && |sc.bars| + |next| <= BARS_MAX && Sweep(sc, added, i) == Sweep(sc, next, i + 1)
    ensures if next == added then Next(sc, added, sc.drawins[i]) ==> !Agreed(sc, sc.drawins[i], Elements(added))
            else next == added + [sc.drawins[i]] && Next(sc, added, sc.drawins[i])
                 && Agreed(sc, sc.drawins[i], Elements(added))
  {
    var d := sc.drawins[i];
    next := added;
    if Candidate(d) && d !in sc.bars + added {
      RoomLeft(sc, added, d);
      CanDeclareIffAttaches(sc, d, added);
      if CanDeclare(sc, d, added) {
        JustifiedSnoc(sc, added, d);
        next := added + [d];
      }
    }
  }

  /** What the pass has declared was attachable in turn, and at the end nothing is left
      that could be declared. */
  lemma {:induction false} SweepJustified(sc: Scene, added: seq<Drawin>, i: nat)
    requires WellFormed(sc) && Justified(sc, added) && i <= |sc.drawins| && |sc.bars| + |added| <= BARS_MAX
    ensures Justified(sc, Sweep(sc, added, i))
    ensures |Sweep(sc, added, i)| == |added| ==>
              forall k | i <= k < |sc.drawins| && Next(sc, added, sc.drawins[k]) ::
                !Agreed(sc, sc.drawins[k], Elements(added))
    decreases |sc.drawins| - i
  {
    if i < |sc.drawins| {
      var next := SweepStep(sc, added, i);
      SweepJustified(sc, next, i + 1);
    }
  }

  ghost predicate Stuck(sc: Scene, added: seq<Drawin>) {
    forall d | Next(sc, added, d) :: !Agreed(sc, d, Elements(added))
  }

  lemma {:induction false} SettleJustified(sc: Scene, added: seq<Drawin>)
    requires WellFormed(sc) && Justified(sc, added) && |sc.bars| + |added| <= BARS_MAX
    ensures Justified(sc, Settle(sc, added)) && Stuck(sc, Settle(sc, added))
    decreases BARS_MAX - |sc.bars| - |added|
  {
    SweepJustified(sc, added, 0);
    var next := Sweep(sc, added, 0);
    if |next| == |added| {
      forall d | Next(sc, added, d) ensures !Agreed(sc, d, Elements(added)) {
        var k :| 0 <= k < |sc.drawins| && sc.drawins[k] == d;
      }
    } else {
      SettleJustified(sc, next);
    }
  }

  lemma DeclaredJustified(sc: Scene)
    requires WellFormed(sc)
    ensures Justified(sc, Declared(sc)) && Stuck(sc, Declared(sc))
    ensures Elements(Declared(sc)) <= Attachable(sc)
  {
    SettleJustified(sc, []);
    InsideClosed(sc, Declared(sc), Attachable(sc));
  }

  function Filtered(ds: seq<Drawin>, d: Drawin): (r: seq<Drawin>)
    ensures forall x :: x in r <==> x in ds && x != d
    ensures |r| <= |ds|
    ensures (forall i, j | 0 <= i < j < |ds| :: ds[i] != ds[j]) ==> forall i, j | 0 <= i < j < |r| :: r[i] != r[j]
  {
    if ds == [] then []
    else
      var rest := Filtered(ds[1..], d);
      assert forall x :: x in ds <==> x == ds[0] || x in ds[1..];
      assert forall i | 0 <= i < |rest| :: rest[i] in rest;
      assert forall i | 0 < i < |ds| :: ds[i] == ds[1..][i - 1];
      if ds[0] == d then rest else [ds[0]] + rest
  }

  /** The scene without one popup. */
  function But(sc: Scene, d: Drawin): Scene { sc.(drawins := Filtered(sc.drawins, d)) }

  lemma ButWellFormed(sc: Scene, d: Drawin)
    requires WellFormed(sc)
    ensures WellFormed(But(sc, d))
  {
    forall b | Bindable(But(sc, d), b) ensures b.id != 0 {
      assert Elements(But(sc, d).drawins) <= Elements(sc.drawins);
      assert BoundIn(sc, b, Elements(But(sc, d).drawins));
      BoundGrows(sc, b, Elements(But(sc, d).drawins), Elements(sc.drawins));
    }
  }

  /** No attachable popup's target names two elements among what is attachable without it. */
  ghost predicate NoClash(sc: Scene)
    requires WellFormed(sc)
  {
    forall d | d in Attachable(sc) :: (ButWellFormed(sc, d); Agreed(sc, d, Attachable(But(sc, d))))
  }

  lemma SameAttaches(sc: Scene, order: seq<Drawin>, d: Drawin, s: set<Drawin>)
    ensures Attaches(sc.(drawins := order), d, s) == Attaches(sc, d, s)
    ensures Agreed(sc.(drawins := order), d, s) == Agreed(sc, d, s)
  {
    var other := sc.(drawins := order);
    assert forall b :: BoundIn(sc, b, s) <==> BoundIn(other, b, s);
  }

  /** What the pass declares without d stays within what is attachable without d. */
  lemma WithoutIt(sc: Scene, d: Drawin, added: seq<Drawin>)
    requires WellFormed(sc) && Justified(sc, added) && d !in added
    ensures WellFormed(But(sc, d)) && Elements(added) <= Attachable(But(sc, d))
  {
    ButWellFormed(sc, d);
    var u := Attachable(But(sc, d));
    forall x | x in added && Attaches(sc, x, u) ensures x in u {
      SameAttaches(sc, But(sc, d).drawins, x, u);
      var k :| 0 <= k < |added| && added[k] == x;
    }
    JustifiedInside(sc, added, u, |added|);
    assert added[..|added|] == added;
  }

  /** Without a clash a popup that the pass has made attachable is declared. */
  lemma NothingMissing(sc: Scene, d: Drawin)
    requires WellFormed(sc) && NoClash(sc)
    requires d in sc.drawins && d !in sc.bars && Attaches(sc, d, Elements(Declared(sc)))
    ensures d in Elements(Declared(sc))
  {
    DeclaredJustified(sc);
    var f := Declared(sc);
    if d !in f {
      AttachesGrows(sc, d, Elements(f), Attachable(sc));
      assert d in Attachable(sc);
      WithoutIt(sc, d, f);
      AttachesGrows(sc, d, Elements(f), Attachable(But(sc, d)));
      assert Next(sc, f, d);
    }
  }

  /** Without a clash the pass declares exactly the least set that holds every popup it
      makes attachable. */
  lemma DeclaresLeastSet(sc: Scene)
    requires WellFormed(sc) && NoClash(sc)
    ensures Elements(Declared(sc)) == Attachable(sc)
    ensures forall i, j | 0 <= i < j < |Declared(sc)| :: Declared(sc)[i] != Declared(sc)[j]
  {
    DeclaredJustified(sc);
    forall d | d in sc.drawins && d !in sc.bars && Attaches(sc, d, Elements(Declared(sc)))
      ensures d in Elements(Declared(sc))
    {
      NothingMissing(sc, d);
    }
    assert Closed(sc, Elements(Declared(sc)));
  }

  ghost predicate Reorders(order: seq<Drawin>, ds: seq<Drawin>) {
    && Elements(order) == Elements(ds) && |order| == |ds|
    && forall i, j | 0 <= i < j < |order| :: order[i] != order[j]
  }

  lemma ReorderedScene(sc: Scene, order: seq<Drawin>)
    requires WellFormed(sc) && Reorders(order, sc.drawins)
    ensures WellFormed(sc.(drawins := order)) && Attachable(sc.(drawins := order)) == Attachable(sc)
  {
    var other := sc.(drawins := order);
    forall b ensures Bindable(other, b) <==> Bindable(sc, b) {
      assert BoundIn(other, b, Elements(order)) <==> BoundIn(sc, b, Elements(order));
    }
    forall s: set<Drawin> ensures Closed(sc, s) <==> Closed(other, s) { SameClosed(sc, order, s); }
    AttachableOnce(other, Attachable(sc));
  }

  lemma SameClosed(sc: Scene, order: seq<Drawin>, s: set<Drawin>)
    requires Elements(order) == Elements(sc.drawins)
    ensures Closed(sc, s) <==> Closed(sc.(drawins := order), s)
  {
    var other := sc.(drawins := order);
    forall d ensures d in order <==> d in sc.drawins { assert d in Elements(order) <==> d in Elements(sc.drawins); }
    forall d ensures Attaches(other, d, s) == Attaches(sc, d, s) { SameAttaches(sc, order, d, s); }
  }

  lemma NoClashReorders(sc: Scene, order: seq<Drawin>)
    requires WellFormed(sc) && Reorders(order, sc.drawins) && WellFormed(sc.(drawins := order)) && NoClash(sc)
    ensures NoClash(sc.(drawins := order))
  {
    var other := sc.(drawins := order);
    ReorderedScene(sc, order);
    forall d | d in Attachable(other) ensures (ButWellFormed(other, d); Agreed(other, d, Attachable(But(other, d)))) {
      ButWellFormed(sc, d);
      ButWellFormed(other, d);
      ButReorders(sc, order, d);
      SameAttaches(sc, order, d, Attachable(But(sc, d)));
    }
  }

  lemma ButReorders(sc: Scene, order: seq<Drawin>, d: Drawin)
    requires WellFormed(But(sc, d)) && WellFormed(But(sc.(drawins := order), d)) && Reorders(order, sc.drawins)
    ensures Attachable(But(sc.(drawins := order), d)) == Attachable(But(sc, d))
  {
    var a, b := But(sc, d).drawins, But(sc.(drawins := order), d).drawins;
    forall x ensures x in a <==> x in b { assert x in Elements(order) <==> x in Elements(sc.drawins); }
    assert Elements(b) == Elements(a);
    ElementsSize(a);
    ElementsSize(b);
    ReorderedScene(But(sc, d), b);
    assert But(sc, d).(drawins := b) == But(sc.(drawins := order), d);
  }

  /** Without a clash every order of the list declares the same popups. */
  lemma OrderIsIrrelevant(sc: Scene, order: seq<Drawin>)
    requires WellFormed(sc) && Reorders(order, sc.drawins) && NoClash(sc)
    ensures Elements(Declared(sc.(drawins := order))) == Elements(Declared(sc)) == Attachable(sc)
  {
    ReorderedScene(sc, order);
    NoClashReorders(sc, order);
    DeclaresLeastSet(sc);
    DeclaresLeastSet(sc.(drawins := order));
  }

  // --- the converse: a clash leaves a popup out in some order ---

  /** Once its target names two elements, a popup is never declared. */
  lemma {:induction false} ClashStays(sc: Scene, d: Drawin, added: seq<Drawin>, i: nat)
    requires WellFormed(sc) && Justified(sc, added) && i <= |sc.drawins| && |sc.bars| + |added| <= BARS_MAX
    requires d !in added && !Agreed(sc, d, Elements(added))
    ensures d !in Sweep(sc, added, i) && !Agreed(sc, d, Elements(Sweep(sc, added, i)))
    decreases |sc.drawins| - i
  {
    if i < |sc.drawins| {
      var next := SweepStep(sc, added, i);
      if next != added {
        AttachesGrows(sc, d, Elements(added), Elements(next));
      }
      ClashStays(sc, d, next, i + 1);
    }
  }

  lemma {:induction false} ClashedForGood(sc: Scene, d: Drawin, added: seq<Drawin>)
    requires WellFormed(sc) && Justified(sc, added) && |sc.bars| + |added| <= BARS_MAX
    requires d !in added && !Agreed(sc, d, Elements(added))
    ensures d !in Settle(sc, added)
    decreases BARS_MAX - |sc.bars| - |added|
  {
    ClashStays(sc, d, added, 0);
    SweepJustified(sc, added, 0);
    var next := Sweep(sc, added, 0);
    if |next| != |added| { ClashedForGood(sc, d, next); }
  }

  lemma NextInChain(sc: Scene, chain: seq<Drawin>, i: nat)
    requires Justified(sc, chain) && chain <= sc.drawins && i < |chain|
    ensures Next(sc, chain[..i], chain[i]) && sc.drawins[i] == chain[i]
  {
    forall k | 0 <= k < i ensures chain[..i][k] != chain[i] {}
  }

  /** A list that starts with popups in the order they become attachable, and then one
      whose target they make ambiguous: something attachable is left out. */
  lemma ClashInOrder(sc: Scene, chain: seq<Drawin>, d: Drawin, i: nat) returns (e: Drawin)
    requires WellFormed(sc) && Justified(sc, chain) && i <= |chain| < |sc.drawins| && |sc.bars| + i <= BARS_MAX
    requires chain <= sc.drawins && sc.drawins[|chain|] == d && d !in chain && !Agreed(sc, d, Elements(chain))
    requires Sweep(sc, [], 0) == Sweep(sc, chain[..i], i)
    ensures e in Elements(chain) + {d} && e !in Declared(sc)
    decreases |chain| - i
  {
    var added := chain[..i];
    PrefixJustified(sc, chain, i);
    if i == |chain| {
      assert added == chain;
      e := d;
      LeftOut(sc, e, added, i);
    } else {
      e := chain[i];
      NextInChain(sc, chain, i);
      var next := SweepStep(sc, added, i);
      if next == added {
        LeftOut(sc, e, added, i);
      } else {
        assert chain[..i + 1] == added + [e];
        e := ClashInOrder(sc, chain, d, i + 1);
      }
    }
  }

  lemma PrefixJustified(sc: Scene, chain: seq<Drawin>, i: nat)
    requires Justified(sc, chain) && i <= |chain|
    ensures Justified(sc, chain[..i])
  {
    forall k | 0 <= k < i ensures Attaches(sc, chain[..i][k], Elements(chain[..i][..k])) {
      assert chain[..i][..k] == chain[..k];
    }
  }

  lemma {:induction false} LeftOut(sc: Scene, e: Drawin, added: seq<Drawin>, i: nat)
    requires WellFormed(sc) && Justified(sc, added) && i <= |sc.drawins| && |sc.bars| + |added| <= BARS_MAX
    requires e !in added && !Agreed(sc, e, Elements(added)) && Sweep(sc, [], 0) == Sweep(sc, added, i)
    ensures e !in Declared(sc)
  {
    ClashStays(sc, e, added, i);
    SweepJustified(sc, added, i);
    var next := Sweep(sc, [], 0);
    if |next| > 0 { ClashedForGood(sc, e, next); }
  }

  /** The order that shows a clash: what is attachable without d, then d, then the rest. */
  lemma ClashingOrder(sc: Scene, d: Drawin) returns (order: seq<Drawin>)
    requires WellFormed(sc) && d in Attachable(sc) && WellFormed(But(sc, d))
    requires !Agreed(sc, d, Attachable(But(sc, d)))
    ensures Reorders(order, sc.drawins) && WellFormed(sc.(drawins := order))
    ensures Elements(Declared(sc.(drawins := order))) != Attachable(sc)
  {
    var chain := Chain(But(sc, d), []);
    AttachableOnce(But(sc, d), Elements(chain)) by { ChainLeast(But(sc, d)); }
    InList(sc, d);
    order := FrontedOrder(sc, chain, d);
    ReorderedScene(sc, order);
    var other := sc.(drawins := order);
    ChainElsewhere(sc, d, order, chain);
    SameAttaches(sc, order, d, Elements(chain));
    assert chain[..0] == [];
    var e := ClashInOrder(other, chain, d, 0);
    if e in chain { InsideClosed(other, chain, Attachable(other)); }
  }

  lemma {:induction false} ChainLeast(sc: Scene)
    requires WellFormed(sc)
    ensures var c := Chain(sc, []); Closed(sc, Elements(c)) && forall s: set<Drawin> | Closed(sc, s) :: Elements(c) <= s
  {
    var c := Chain(sc, []);
    forall s: set<Drawin> | Closed(sc, s) ensures Elements(c) <= s { InsideClosed(sc, c, s); }
  }

  lemma InList(sc: Scene, d: Drawin)
    requires WellFormed(sc) && d in Attachable(sc)
    ensures d in sc.drawins && d !in sc.bars
  {
    var c := Chain(sc, []);
    ChainLeast(sc);
    AttachableOnce(sc, Elements(c));
    var k :| 0 <= k < |c| && c[k] == d;
  }

  lemma ChainElsewhere(sc: Scene, d: Drawin, order: seq<Drawin>, chain: seq<Drawin>)
    requires Justified(But(sc, d), chain) && Elements(order) == Elements(sc.drawins)
    ensures Justified(sc.(drawins := order), chain) && d !in chain
  {
    var other := sc.(drawins := order);
    forall k | 0 <= k < |chain| ensures chain[k] in order && Attaches(other, chain[k], Elements(chain[..k])) {
      SameAttaches(sc, order, chain[k], Elements(chain[..k]));
      SameAttaches(sc, But(sc, d).drawins, chain[k], Elements(chain[..k]));
      assert chain[k] in Elements(sc.drawins);
    }
  }

  /** A list without the elements of another, in order. */
  function Others(ds: seq<Drawin>, taken: seq<Drawin>): (r: seq<Drawin>)
    ensures forall x :: x in r <==> x in ds && x !in taken
    ensures (forall i, j | 0 <= i < j < |ds| :: ds[i] != ds[j]) ==> forall i, j | 0 <= i < j < |r| :: r[i] != r[j]
  {
    if taken == [] then ds
    else
      var rest := Others(ds, taken[1..]);
      assert forall x :: x in taken <==> x == taken[0] || x in taken[1..];
      Filtered(rest, taken[0])
  }

  lemma FrontedOrder(sc: Scene, chain: seq<Drawin>, d: Drawin) returns (order: seq<Drawin>)
    requires WellFormed(sc) && Justified(But(sc, d), chain) && d in sc.drawins
    ensures Reorders(order, sc.drawins) && chain + [d] <= order
  {
    var front := chain + [d];
    var rest := Others(sc.drawins, front);
    order := front + rest;
    forall x ensures x in Elements(order) <==> x in Elements(sc.drawins) {
      if x in chain { assert x in But(sc, d).drawins; }
    }
    assert forall i | 0 <= i < |chain| :: chain[i] in But(sc, d).drawins;
    forall i, j | 0 <= i < j < |order| ensures order[i] != order[j] {
      if i < |front| <= j { assert order[j] in rest && order[i] in front; }
    }
    ElementsSize(order);
    ElementsSize(sc.drawins);
  }

  /** The whole promise and its exact condition: every order of the list declares exactly the
      attachable popups if and only if no attachable popup's target names two elements
      among what is attachable without it. */
  lemma EveryOrderDeclaresAllIffNoClash(sc: Scene)
    requires WellFormed(sc)
    ensures NoClash(sc) <==>
            forall order: seq<Drawin> | Reorders(order, sc.drawins) ::
              WellFormed(sc.(drawins := order)) && Elements(Declared(sc.(drawins := order))) == Attachable(sc)
  {
    if NoClash(sc) {
      forall order: seq<Drawin> | Reorders(order, sc.drawins)
        ensures WellFormed(sc.(drawins := order)) && Elements(Declared(sc.(drawins := order))) == Attachable(sc)
      {
        ReorderedScene(sc, order);
        OrderIsIrrelevant(sc, order);
      }
    } else {
      var d :| d in Attachable(sc) && !(ButWellFormed(sc, d); Agreed(sc, d, Attachable(But(sc, d))));
      ButWellFormed(sc, d);
      var order := ClashingOrder(sc, d);
    }
  }

  // --- when there is no clash ---

  /** Everything a candidate's target could ever match is one element. */
  ghost predicate OneElementATarget(sc: Scene) {
    forall d, a, b | d in sc.drawins && UsesTarget(d) && (d.occurrence == 0 ==> !Ambiguous(sc, d))
                     && Bindable(sc, a) && Bindable(sc, b) && Matches(d, a) && Matches(d, b) :: a.id == b.id
  }

  lemma OneElementMeansNoClash(sc: Scene)
    requires WellFormed(sc) && OneElementATarget(sc)
    ensures NoClash(sc)
  {
    forall d | d in Attachable(sc) ensures (ButWellFormed(sc, d); Agreed(sc, d, Attachable(But(sc, d)))) {
      ButWellFormed(sc, d);
      var u := Attachable(But(sc, d));
      AttachableInList(But(sc, d));
      InList(sc, d);
      AttachableAttaches(sc, d);
      forall b | BoundIn(sc, b, u) ensures Bindable(sc, b) { BoundGrows(sc, b, u, Elements(sc.drawins)); }
    }
  }

  lemma AttachableInList(sc: Scene)
    requires WellFormed(sc)
    ensures Attachable(sc) <= Elements(sc.drawins)
  {
    forall d | d in Attachable(sc) ensures d in sc.drawins { InList(sc, d); }
  }

  lemma AttachableAttaches(sc: Scene, d: Drawin)
    requires WellFormed(sc) && d in Attachable(sc)
    ensures Attaches(sc, d, Attachable(sc))
  {
    var c := Chain(sc, []);
    ChainLeast(sc);
    AttachableOnce(sc, Elements(c));
    var k :| 0 <= k < |c| && c[k] == d;
    assert forall x | x in c[..k] :: x in c;
    AttachesGrows(sc, d, Elements(c[..k]), Elements(c));
  }

  lemma {:induction false} CountTwo(placed: seq<Binding>, d: Drawin, a: Binding, b: Binding)
    requires a in placed && b in placed && a != b
    requires a.identity == b.identity == d.target
    requires d.host == 0 || a.host == b.host == d.host
    ensures Count(placed, d) > 1
    decreases |placed|
  {
    var n := |placed| - 1;
    assert placed == placed[..n] + [placed[n]];
    if a in placed[..n] && b in placed[..n] {
      CountTwo(placed[..n], d, a, b);
    } else if a in placed[..n] {
      CountOne(placed[..n], d, a);
    } else {
      CountOne(placed[..n], d, b);
    }
  }

  lemma {:induction false} CountOne(placed: seq<Binding>, d: Drawin, a: Binding)
    requires a in placed && a.identity == d.target && (d.host == 0 || a.host == d.host)
    ensures Count(placed, d) > 0
    decreases |placed|
  {
    var n := |placed| - 1;
    assert placed == placed[..n] + [placed[n]];
    if placed[n] != a { CountOne(placed[..n], d, a); }
  }

  /** What the ambiguity count is for: when it sees every placement that can be bound, and
      a token names one element, a target that passes it names at most one. */
  lemma TargetNamesOne(sc: Scene, d: Drawin, a: Binding, b: Binding)
    requires Bindable(sc, a) && Bindable(sc, b) && Matches(d, a) && Matches(d, b)
    requires d.occurrence == 0 ==> !Ambiguous(sc, d) && a in sc.placed && b in sc.placed
    requires d.occurrence != 0 && a.identity == b.identity && a.occurrence == b.occurrence ==> a.id == b.id
    ensures a.id == b.id
  {
    if d.occurrence == 0 && a != b {
      CountTwo(sc.placed, d, a, b);
    }
  }

  /** Popups that are attached only to each other are left out, of every scene. */
  lemma CyclesAreAbsent(sc: Scene, cycle: set<Drawin>)
    requires WellFormed(sc)
    requires forall d | d in cycle :: UsesTarget(d)
    requires forall d, b | d in cycle && Bindable(sc, b) && Matches(d, b) ::
               b !in sc.targets && forall e | e in sc.drawins && b in e.binds :: e in cycle
    ensures cycle !! Elements(Declared(sc))
  {
    var s := Elements(sc.drawins) - cycle;
    forall d | d in sc.drawins && d !in sc.bars && Attaches(sc, d, s) ensures d in s {
      if d in cycle {
        var b :| BoundIn(sc, b, s) && Matches(d, b) && (d.hover ==> b.id in sc.over);
        BoundGrows(sc, b, s, Elements(sc.drawins));
      }
    }
    DeclaredJustified(sc);
    InsideClosed(sc, Declared(sc), s);
  }

  // --- a clash ---

  /** A lock drawin's widget is bound while the session is not locked but not counted; a
      popup places the same widget again, and another targets it without an occurrence. */
  const Placing := Drawin(1, true, 1, 0, 0, 0, false, false, false, [Binding(5, 2, 2, 20)])
  const Aiming := Drawin(2, true, 1, 5, 0, 0, false, false, false, [])
  const Uncounted := Scene([Aiming, Placing], [Binding(5, 2, 2, 20)], {}, 1, 2, [Binding(5, 1, 9, 10)], [])
  const Reordered := Uncounted.(drawins := [Placing, Aiming])

  lemma AimingFirst()
    ensures Aiming in Declared(Uncounted)
  {
    var ts := Uncounted.targets;
    assert ts + Binds([]) == ts && ts[1..] == [];
    assert Uncounted.placed[..0] == [];
    assert Count(Uncounted.placed, Aiming) == 1;
    assert Scan(Aiming, ts, 0) == 10;
    assert CanDeclare(Uncounted, Aiming, []);
    assert Sweep(Uncounted, [], 0) == Sweep(Uncounted, [] + [Aiming], 1);
    assert ([] + [Aiming])[0] == Aiming;
    assert [Aiming] <= Sweep(Uncounted, [], 0);
    assert [Aiming] <= Declared(Uncounted);
  }

  lemma AimingLast()
    ensures Declared(Reordered) == [Placing]
  {
    var one := [Placing];
    assert [] + one == one && one[..0] == [];
    var ts := Reordered.targets + Binds(one);
    assert Binds(one) == Binds([]) + Placing.binds == Placing.binds;
    assert ts == [Binding(5, 1, 9, 10), Binding(5, 2, 2, 20)];
    assert ts[1..] == [Binding(5, 2, 2, 20)];
    assert Scan(Aiming, ts[1..], 10) == 0;
    assert Scan(Aiming, ts, 0) == Scan(Aiming, ts[1..], 10);
    assert !CanDeclare(Reordered, Aiming, one);
    assert Sweep(Reordered, one, 2) == one;
    assert Sweep(Reordered, one, 1) == one;
    assert Sweep(Reordered, one, 0) == one;
    assert CanDeclare(Reordered, Placing, []);
    assert Sweep(Reordered, [], 0) == Sweep(Reordered, one, 1);
    assert Settle(Reordered, one) == one;
  }

  /** Two elements of one widget, of which the ambiguity count sees one: the popup that
      targets it is declared or not depending on where the list has it. */
  lemma UncountedPlacementMakesOrderMatter()
    ensures WellFormed(Uncounted) && Reorders(Reordered.drawins, Uncounted.drawins) && !NoClash(Uncounted)
    ensures Elements(Declared(Uncounted)) != Elements(Declared(Reordered))
  {
    AimingFirst();
    AimingLast();
    assert Aiming in Elements(Declared(Uncounted)) && Aiming !in Elements(Declared(Reordered));
    forall b | Bindable(Uncounted, b) ensures b.id != 0 {
      if b !in Uncounted.targets {
        var d :| d in Elements(Uncounted.drawins) && b in d.binds;
        assert d == Aiming || d == Placing;
      }
    }
    assert Elements(Reordered.drawins) == Elements(Uncounted.drawins);
    if NoClash(Uncounted) { OrderIsIrrelevant(Uncounted, Reordered.drawins); }
  }

  lemma {:induction false} BindsSnoc(ts: seq<Binding>, ds: seq<Drawin>, d: Drawin)
    ensures ts + Binds(ds + [d]) == ts + Binds(ds) + d.binds
  {
    assert (ds + [d])[..|ds|] == ds;
  }

  // --- the pass as it runs ---

  class Pass {
    const scene: Scene
    var targets: seq<Binding>    // attachment_targets
    var bars: seq<Drawin>

    ghost predicate Valid(added: seq<Drawin>)
      reads this
    {
      && bars == scene.bars + added && |bars| <= BARS_MAX
      && targets == scene.targets + Binds(added)
    }

    constructor (sc: Scene)
      requires |sc.bars| <= BARS_MAX
      ensures scene == sc && Valid([])
    {
      scene, targets, bars := sc, sc.targets, sc.bars;
    }

    method IsAmbiguous(d: Drawin) returns (r: bool)
      ensures r == Ambiguous(scene, d)
    {
      var count := 0;
      for i := 0 to |scene.placed|
        invariant count == Count(scene.placed[..i], d)
      {
        assert scene.placed[..i + 1][..i] == scene.placed[..i];
        var p := scene.placed[i];
        if p.identity == d.target && (d.host == 0 || p.host == d.host) { count := count + 1; }
      }
      assert scene.placed[..|scene.placed|] == scene.placed;
      r := count > 1;
    }

    method AttachmentTarget(d: Drawin) returns (id: nat)
      ensures id == Target(scene, d, targets)
    {
      if d.occurrence == 0 {
        var ambiguous := IsAmbiguous(d);
        if ambiguous { return 0; }
      }
      id := 0;
      assert targets[0..] == targets;
      for i := 0 to |targets|
        invariant Scan(d, targets, 0) == Scan(d, targets[i..], id)
      {
        assert targets[i..][1..] == targets[i + 1..];
        if Matches(d, targets[i]) {
          if id != 0 && id != targets[i].id { return 0; }
          id := targets[i].id;
        }
      }
    }

    method ParentElement(d: Drawin) returns (target: nat)
      ensures target == Parent(scene, d, targets)
    {
      if d.kind == 2 && d.target == 0 { return 0; }
      if (d.kind == 3 && d.bounded) || d.workarea { return scene.workareaId; }
      if d.target != 0 {
        target := AttachmentTarget(d);
      } else {
        target := scene.rootId;
      }
    }

    method DeclareAttachment(d: Drawin, ghost added: seq<Drawin>) returns (ok: bool)
      requires Valid(added)
      modifies this
      ensures ok == CanDeclare(scene, d, added)
      ensures Valid(if ok then added + [d] else added)
    {
      var target := ParentElement(d);
      if target == 0 || |bars| == BARS_MAX { return false; }
      if d.hover && target !in scene.over { return false; }
      BindsSnoc(scene.targets, added, d);
      assert scene.bars + added + [d] == scene.bars + (added + [d]);
      bars := bars + [d];
      targets := targets + d.binds;
      ok := true;
    }

    /** The loop at the end of declare_drawins. */
    method DeclareAttachments()
      requires Valid([])
      modifies this
      ensures Valid(Declared(scene))
    {
      ghost var added: seq<Drawin> := [];
      var progress := true;
      while progress
        invariant Valid(added)
        invariant Declared(scene) == Settle(scene, added)
        invariant !progress ==> Settle(scene, added) == added
        decreases BARS_MAX - |bars|, progress
      {
        progress := false;
        ghost var before := added;
        for i := 0 to |scene.drawins|
          invariant Valid(added) && before <= added
          invariant Sweep(scene, before, 0) == Sweep(scene, added, i)
          invariant progress == (|added| > |before|)
        {
          var d := scene.drawins[i];
          if Candidate(d) && d !in bars {
            var ok := DeclareAttachment(d, added);
            if ok {
              progress := true;
              added := added + [d];
            }
          }
        }
        assert Sweep(scene, before, 0) == added;
        assert !progress ==> added == before;
      }
    }
  }
}

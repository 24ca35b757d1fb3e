/**
 The locked session as an input barrier. A session lock turns into a section at the
 top of every output's declared order; the hit walk takes points from the top of the
 order the output last drew, and the section's backdrop ends it.
 */
module LockBarrier {
  import opened Options
  import opened Handles

  // --- the bands ---

  const Z_CLIENT_NORMAL := 20
  const Z_LOCK_BACKDROP := 200
  const Z_LOCK_COVER := 210
  const Z_LOCK_SURFACE := 220
  const Z_CURSOR := 32767

  datatype WindowLayer = LayerDesktop | LayerBelow | LayerNormal | LayerAbove | LayerFullscreen | LayerOntop
  datatype DrawinType = TypeDesktop | TypeSplash | TypeNotification | TypeOther
  datatype ShellLayer = ShellBackground | ShellBottom | ShellTop | ShellOverlay

  /** What the desktop part of a pass declares, by what its band depends on. */
  datatype Element =
    | Flow
    | Client(unmanaged: bool, fullscreen: bool, ontop: bool, layer: WindowLayer)
    | ClientFloor(client: Element)
    | DrawinRoot(kind: DrawinType, atop: bool)
    | Bar(above: bool)
    | LayerSurface(shell: ShellLayer)
    | PopupLeaf
    | Attached(launcher: bool)
    | Notifications
    | FullscreenBacking
    | DragIcon
    | Shadow(owner: Element)

  function Z(e: Element): int {
    match e
    case Flow => 0
    case Client(unmanaged, fullscreen, ontop, layer) =>
      if unmanaged then 110
      else if fullscreen then (if ontop then 50 else 40)
      else (match layer
            case LayerDesktop => -6
            case LayerBelow => 10
            case LayerNormal => Z_CLIENT_NORMAL
            case LayerAbove => 30
            case LayerFullscreen => 40
            case LayerOntop => 50)
    case ClientFloor(c) => if Z(c) < 0 then 0 else Z(c)
    case DrawinRoot(kind, atop) =>
      if kind.TypeDesktop? || kind.TypeSplash? then -4
      else if atop then (if kind.TypeNotification? then 90 else 80)
      else 25
    case Bar(above) => if above then 60 else 25
    case LayerSurface(shell) =>
      (match shell
       case ShellBackground => -8
       case ShellBottom => -2
       case ShellTop => 70
       case ShellOverlay => 100)
    case PopupLeaf => 80
    case Attached(launcher) => if launcher then 90 else 80
    case Notifications => 90
    case FullscreenBacking => 38
    case DragIcon => 120
    case Shadow(owner) => Z(owner) - 1
  }

  lemma {:induction false} DesktopIsBelowTheLock(e: Element)
    ensures Z(e) < Z_LOCK_BACKDROP
  {
    match e
    case ClientFloor(c) => DesktopIsBelowTheLock(c);
    case Shadow(owner) => DesktopIsBelowTheLock(owner);
    case _ =>
  }

  /** Below the flow root, at 0, are the layers, the desktop clients and the desktop and
      splash drawins that the bars draw over; what a tiled client becomes is never there. */
  lemma UnderTheFlow(e: Element)
    ensures Z(e) < 0 <==>
              match e
              case Client(unmanaged, fullscreen, _, layer) => !unmanaged && !fullscreen && layer == LayerDesktop
              case DrawinRoot(kind, _) => kind in {TypeDesktop, TypeSplash}
              case LayerSurface(shell) => shell in {ShellBackground, ShellBottom}
              case Shadow(owner) => Z(owner) <= 0
              case _ => false
  {
  }

  /** On top of the desktop are the drag icon and, under it, unmanaged clients; a fullscreen
      client is above its backing, which is above every client without a claim of its own. */
  lemma OnTopOfTheDesktop(e: Element, layer: WindowLayer)
    requires !e.Shadow? && !e.ClientFloor?
    ensures Z(e) > Z(LayerSurface(ShellOverlay)) <==> e.DragIcon? || (e.Client? && e.unmanaged)
    ensures e.Client? ==> Z(e) < Z(DragIcon)
    ensures layer !in {LayerFullscreen, LayerOntop} ==>
              Z(Client(false, false, false, layer)) < Z(FullscreenBacking) < Z(Client(false, true, false, layer))
  {
  }

  // --- the declared scene ---

  const KIND_WALLPAPER := 5
  const KIND_DRAWIN := 3
  const KIND_LOCK := 6
  const KIND_LOCK_BLOCK := 7
  const KIND_DRAG := 8
  const KIND_CURSOR := 10

  datatype Box = Box(x: int, y: int, w: int, h: int)

  predicate Within(b: Box, x: real, y: real) {
    b.x as real <= x < (b.x + b.w) as real && b.y as real <= y < (b.y + b.h) as real
  }

  /** One drawn node: its root's band, the handle in its word if it carries one, and its box. */
  datatype Node = Node(z: int, owner: Option<Handle>, box: Box)

  datatype Leaf = Leaf(of: Element, owner: Option<Handle>, box: Box)

  /** A box of a lock drawin's tree: its own, or a client composite the tree holds. */
  datatype Part = Own(box: Box) | Hosted(client: Handle, element: Element, floating: bool, area: Box)

  datatype LockDrawin = LockDrawin(obj: nat, shadow: Option<Box>, parts: seq<Part>)

  /** What one pass finds on the desktop and in the lock lists, on an output of this size. */
  datatype Input = Input(desktop: seq<Leaf>, covers: seq<LockDrawin>, surface: Option<LockDrawin>,
                         lockSurface: Option<nat>, cursor: Option<(nat, Box)>)

  /** A composite in flow in the normal layer takes its place in the host's own band. */
  predicate InFlow(p: Part) {
    p.Hosted? && !p.floating && (Z(p.element) == Z_CLIENT_NORMAL || Z(ClientFloor(p.element)) == 0)
  }

  function PartNode(reg: Registry, h: Handle, z: int, p: Part): seq<Node> {
    match p
    case Own(box) => [Node(z, Some(h), box)]
    case Hosted(client, element, _, area) =>
      if Get(reg, client).None? then []
      else [Node(if InFlow(p) then z else Z(ClientFloor(element)), Some(client), area)]
  }

  function PartNodes(reg: Registry, h: Handle, z: int, ps: seq<Part>): seq<Node> {
    if ps == [] then [] else PartNode(reg, h, z, ps[0]) + PartNodes(reg, h, z, ps[1..])
  }

  function DrawinNodes(reg: Registry, h: Handle, z: int, d: LockDrawin): seq<Node> {
    (if d.shadow.Some? then [Node(z - 1, None, d.shadow.value)] else []) + PartNodes(reg, h, z, d.parts)
  }

  function DeclareDrawins(reg: Registry, z: int, ds: seq<LockDrawin>): (Registry, seq<Node>) {
    if ds == [] then (reg, [])
    else
      var (r, nodes) := DeclareDrawins(reg, z, ds[..|ds| - 1]);
      var d := ds[|ds| - 1];
      var (r', h) := For(r, d.obj, KIND_DRAWIN);
      (r', nodes + DrawinNodes(r', h, z, d))
  }

  function Wanted(s: Option<LockDrawin>): seq<LockDrawin> {
    if s.Some? then [s.value] else []
  }

  function DeclareLeaf(reg: Registry, obj: nat, kind: nat, z: int, box: Box): (Registry, seq<Node>) {
    var (r, h) := For(reg, obj, kind);
    (r, [Node(z, Some(h), box)])
  }

  /** declare_lock_section: the backdrop, the covers, the lock drawin, the lock client's surface. */
  function LockSection(reg: Registry, decl: nat, w: nat, h: nat, i: Input): (Registry, seq<Node>) {
    var whole := Box(0, 0, w, h);
    var (r0, backdrop) := DeclareLeaf(reg, decl, KIND_LOCK_BLOCK, Z_LOCK_BACKDROP, whole);
    var (r1, covers) := DeclareDrawins(r0, Z_LOCK_COVER, i.covers);
    var (r2, surface) := DeclareDrawins(r1, Z_LOCK_SURFACE, Wanted(i.surface));
    var (r3, leaf) := if i.lockSurface.None? then (r2, [])
                      else DeclareLeaf(r2, i.lockSurface.value, KIND_LOCK, Z_LOCK_SURFACE, whole);
    (r3, backdrop + covers + surface + leaf)
  }

  function DesktopNodes(ls: seq<Leaf>): (ns: seq<Node>)
    ensures |ns| == |ls| && forall k | 0 <= k < |ls| :: ns[k] == Node(Z(ls[k].of), ls[k].owner, ls[k].box)
  {
    if ls == [] then [] else [Node(Z(ls[0].of), ls[0].owner, ls[0].box)] + DesktopNodes(ls[1..])
  }

  /** declare_scene, after which Clay sorts. */
  function Scene(reg: Registry, decl: nat, w: nat, h: nat, locked: bool, i: Input): (Registry, seq<Node>) {
    var desktop := DesktopNodes(i.desktop);
    var (r, section) := if locked then LockSection(reg, decl, w, h, i) else (reg, []);
    var (r', cursor) := if i.cursor.None? then (r, [])
                        else DeclareLeaf(r, i.cursor.value.0, KIND_CURSOR, Z_CURSOR, i.cursor.value.1);
    (r', desktop + section + cursor)
  }

  predicate SortedByBand(ns: seq<Node>) {
    forall i, j | 0 <= i < j < |ns| :: ns[i].z <= ns[j].z
  }

  /** What Clay's root sort is relied on for: the same nodes, lower bands first. */
  predicate DrawOrder(declared: seq<Node>, order: seq<Node>) {
    multiset(order) == multiset(declared) && SortedByBand(order)
  }

  // --- the hit walk ---

  datatype Outcome = Missed | Nothing | Taken(who: Entry)

  /** render_hit's box test, then hit_accept. The parameter admits stands for what a node
      paints of its box and what its object takes: surfaces' input regions,
      visibility, rounded corners. The backdrop is a plain rectangle and is not asked. */
  function Answer(reg: Registry, admits: (Node, real, real) -> bool, n: Node, x: real, y: real): Outcome {
    if !Within(n.box, x, y) || n.owner.None? || Get(reg, n.owner.value).None? then Missed
    else
      var e := Get(reg, n.owner.value).value;
      if e.kind == KIND_LOCK_BLOCK then Nothing
      else if e.kind in {KIND_CURSOR, KIND_DRAG, KIND_WALLPAPER} || !admits(n, x, y) then Missed
      else Taken(e)
  }

  /** render_hit: from the top, until a node answers. */
  function Walk(reg: Registry, admits: (Node, real, real) -> bool, order: seq<Node>, x: real, y: real): Outcome {
    if order == [] then Missed
    else
      var top := Answer(reg, admits, order[|order| - 1], x, y);
      if top.Missed? then Walk(reg, admits, order[..|order| - 1], x, y) else top
  }

  /** A node takes the point: it is in the node's box, the node's handle still resolves to
      an object that takes input, and that object takes it there. */
  predicate Takes(reg: Registry, admits: (Node, real, real) -> bool, n: Node, x: real, y: real, e: Entry) {
    && Within(n.box, x, y) && n.owner.Some? && Get(reg, n.owner.value) == Some(e)
    && e.kind !in {KIND_LOCK_BLOCK, KIND_CURSOR, KIND_DRAG, KIND_WALLPAPER} && admits(n, x, y)
  }

  /** The node is a backdrop with the point in its box. */
  predicate Bars(reg: Registry, n: Node, x: real, y: real) {
    && Within(n.box, x, y) && n.owner.Some?
    && Get(reg, n.owner.value).Some? && Get(reg, n.owner.value).value.kind == KIND_LOCK_BLOCK
  }

  predicate Passes(reg: Registry, admits: (Node, real, real) -> bool, n: Node, x: real, y: real) {
    !Bars(reg, n, x, y)
    && (n.owner.Some? && Get(reg, n.owner.value).Some? ==>
          !Takes(reg, admits, n, x, y, Get(reg, n.owner.value).value))
  }

  /** The node at k answers, and every node above it passes the point on. */
  predicate Decides(reg: Registry, admits: (Node, real, real) -> bool, order: seq<Node>, k: nat, x: real, y: real,
                    r: Outcome) {
    && k < |order| && (forall j | k < j < |order| :: Passes(reg, admits, order[j], x, y))
    && Answers(reg, admits, order[k], x, y, r)
  }

  predicate Answers(reg: Registry, admits: (Node, real, real) -> bool, n: Node, x: real, y: real, r: Outcome) {
    match r
    case Taken(e) => Takes(reg, admits, n, x, y, e)
    case Nothing => Bars(reg, n, x, y)
    case Missed => false
  }

  ghost predicate Topmost(reg: Registry, admits: (Node, real, real) -> bool, order: seq<Node>, x: real, y: real,
                          r: Outcome) {
    if forall n | n in order :: Passes(reg, admits, n, x, y) then r == Missed
    else exists k :: Decides(reg, admits, order, k, x, y, r)
  }

  lemma AnswerMeans(reg: Registry, admits: (Node, real, real) -> bool, n: Node, x: real, y: real)
    ensures Passes(reg, admits, n, x, y) <==> Answer(reg, admits, n, x, y).Missed?
    ensures !Passes(reg, admits, n, x, y) ==> Answers(reg, admits, n, x, y, Answer(reg, admits, n, x, y))
  {
  }

  /** The topmost of the nodes that take the point or bar it decides. */
  lemma {:induction false} WalkTopmost(reg: Registry, admits: (Node, real, real) -> bool, order: seq<Node>,
                                       x: real, y: real)
    ensures Topmost(reg, admits, order, x, y, Walk(reg, admits, order, x, y))
    decreases |order|
  {
    if order != [] {
      var k := |order| - 1;
      var below, r := order[..k], Walk(reg, admits, order, x, y);
      assert order == below + [order[k]];
      AnswerMeans(reg, admits, order[k], x, y);
      if Passes(reg, admits, order[k], x, y) {
        WalkTopmost(reg, admits, below, x, y);
        if !forall m | m in below :: Passes(reg, admits, m, x, y) {
          var i: nat :| Decides(reg, admits, below, i, x, y, r);
          DecidesAbove(reg, admits, order, i, x, y, r);
        }
      } else {
        assert Decides(reg, admits, order, k, x, y, r);
      }
    }
  }

  lemma DecidesAbove(reg: Registry, admits: (Node, real, real) -> bool, order: seq<Node>, i: nat, x: real, y: real,
                     r: Outcome)
    requires order != [] && Passes(reg, admits, order[|order| - 1], x, y)
    requires Decides(reg, admits, order[..|order| - 1], i, x, y, r)
    ensures Decides(reg, admits, order, i, x, y, r)
  {
    var below := order[..|order| - 1];
    forall j | i < j < |order| ensures Passes(reg, admits, order[j], x, y) {
      if j < |below| { assert order[j] == below[j]; }
    }
  }

  method RenderHit(reg: Registry, admits: (Node, real, real) -> bool, order: seq<Node>, x: real, y: real)
    returns (r: Outcome)
    ensures r == Walk(reg, admits, order, x, y)
    ensures Topmost(reg, admits, order, x, y, r)
  {
    var i := |order|;
    assert order[..i] == order;
    WalkTopmost(reg, admits, order, x, y);
    while i > 0
      invariant 0 <= i <= |order|
      invariant Walk(reg, admits, order, x, y) == Walk(reg, admits, order[..i], x, y)
    {
      r := Answer(reg, admits, order[i - 1], x, y);
      assert order[..i][..i - 1] == order[..i - 1];
      if !r.Missed? { return; }
      i := i - 1;
    }
    r := Missed;
  }

  // --- sessions, outputs and their runs ---

  // Lock requests, deaths and unlocks, both lock mechanisms, handle registration, outputs
  // coming, going and changing size, and frames that commit or fail, in any order.

  /** What an output last drew. A pass that fails leaves it as it was. */
  datatype Shown = Blank | Shown(order: seq<Node>, locked: bool, w: nat, h: nat, section: set<nat>)

  /** An output: its declare_output object, its place in the layout, what it drew. */
  datatype Output = Output(decl: nat, x: int, y: int, w: nat, h: nat, shown: Shown)

  datatype State = State(locked: bool, current: Option<nat>, lua: bool, reg: Registry, outputs: map<nat, Output>)

  predicate SessionLocked(s: State) { s.locked || s.lua }

  datatype Event =
    | LockRequest(id: nat)
    | LockUnlock(id: nat)
    | LockDestroyed(id: nat)
    | LuaLock(hasSurface: bool)
    | LuaUnlock(authenticated: bool)
    | LuaForced                      // its surface was destroyed, or the configuration reloads
    | Register(obj: nat, kind: nat)
    | Forget(obj: nat)
    | Plug(out: nat, decl: nat, x: int, y: int, w: nat, h: nat)
    | Unplug(out: nat)
    | Place(out: nat, x: int, y: int, w: nat, h: nat)
    | Frame(out: nat, input: Input, order: seq<Node>)
    | FailedFrame(out: nat)

  function HostedObjects(reg: Registry, ps: seq<Part>): set<nat> {
    if ps == [] then {}
    else
      (if InFlow(ps[0]) && Get(reg, ps[0].client).Some? then {Get(reg, ps[0].client).value.obj} else {})
      + HostedObjects(reg, ps[1..])
  }

  function DrawinObjects(reg: Registry, ds: seq<LockDrawin>): set<nat> {
    if ds == [] then {}
    else {ds[0].obj} + HostedObjects(reg, ds[0].parts) + DrawinObjects(reg, ds[1..])
  }

  /** The objects the lock section stands for, and those its drawins' trees host in flow. */
  function SectionObjects(reg: Registry, i: Input): set<nat> {
    DrawinObjects(reg, i.covers + Wanted(i.surface)) + (if i.lockSurface.Some? then {i.lockSurface.value} else {})
  }

  function After(s: State, e: Event): State {
    match e
    case LockRequest(id) =>
      if s.current.Some? || s.lua then s else s.(locked := true, current := Some(id))
    case LockUnlock(id) =>
      if s.current == Some(id) then s.(locked := false, current := None) else s
    case LockDestroyed(id) =>
      if s.current == Some(id) then s.(locked := true, current := None) else s
    case LuaLock(hasSurface) =>
      if s.lua || !hasSurface || s.locked then s else s.(lua := true)
    case LuaUnlock(authenticated) =>
      if s.lua && authenticated then s.(lua := false) else s
    case LuaForced => s.(lua := false)
    case Register(obj, kind) => s.(reg := For(s.reg, obj, kind).0)
    case Forget(obj) => s.(reg := Drop(s.reg, obj))
    case Plug(out, decl, x, y, w, h) =>
      s.(outputs := s.outputs[out := Output(decl, x, y, w, h, Blank)])
    case Unplug(out) =>
      if out in s.outputs then s.(reg := Drop(s.reg, s.outputs[out].decl), outputs := s.outputs - {out}) else s
    case Place(out, x, y, w, h) =>
      if out in s.outputs then s.(outputs := s.outputs[out := s.outputs[out].(x := x, y := y, w := w, h := h)]) else s
    case Frame(out, input, order) =>
      if out in s.outputs then
        var o := s.outputs[out];
        var on := SessionLocked(s);
        var r := Scene(s.reg, o.decl, o.w, o.h, on, input).0;
        s.(reg := r, outputs := s.outputs[out := o.(shown := Shown(order, on, o.w, o.h, SectionObjects(r, input)))])
      else s
    case FailedFrame(out) => s
  }

  function Run(s: State, evs: seq<Event>): State
    decreases |evs|
  {
    if evs == [] then s else Run(After(s, evs[0]), evs[1..])
  }

  predicate IsDecl(s: State, obj: nat) {
    exists out | out in s.outputs :: s.outputs[out].decl == obj
  }

  /** Registrations a frame may make; ids do not wrap. */
  function Needs(i: Input): nat { |i.covers| + 4 }

  /** The lock section's own objects. */
  function RawObjects(i: Input): set<nat> {
    (set d | d in i.covers + Wanted(i.surface) :: d.obj)
    + (if i.lockSurface.Some? then {i.lockSurface.value} else {})
  }

  predicate Typed(reg: Registry, obj: nat, kind: nat) {
    forall e | e in reg.entries :: e.obj == obj ==> e.kind == kind
  }

  /** Objects are of one kind: declare_output objects back the backdrop only, pointer
      images the cursor only. The order is one Clay's sort may give. */
  predicate Possible(s: State, e: Event) {
    match e
    case Register(obj, kind) => s.reg.next < ID_WRAP - 1 && (IsDecl(s, obj) <==> kind == KIND_LOCK_BLOCK)
    case Forget(obj) => !IsDecl(s, obj)
    case Plug(out, decl, _, _, _, _) =>
      out !in s.outputs && !IsDecl(s, decl) && Typed(s.reg, decl, KIND_LOCK_BLOCK)
    case Frame(out, input, order) =>
      && out in s.outputs && s.reg.next + Needs(input) < ID_WRAP
      && (forall o | o in RawObjects(input) :: !IsDecl(s, o))
      && (input.cursor.Some? ==>
            !IsDecl(s, input.cursor.value.0) && input.cursor.value.0 !in RawObjects(input)
            && Typed(s.reg, input.cursor.value.0, KIND_CURSOR))
      && var o := s.outputs[out]; DrawOrder(Scene(s.reg, o.decl, o.w, o.h, SessionLocked(s), input).1, order)
    case _ => true
  }

  predicate Along(s: State, evs: seq<Event>)
    decreases |evs|
  {
    evs == [] || (Possible(s, evs[0]) && Along(After(s, evs[0]), evs[1..]))
  }

  // --- what the registry keeps of a drawn node's handle ---

  /** Nothing the handle can resolve to, now or later, is outside the set. */
  predicate Confined(reg: Registry, h: Handle, objs: set<nat>) {
    h.id < reg.next && forall e | e in reg.entries :: e.id == h.id ==> e.obj in objs
  }

  predicate CursorOnly(reg: Registry, h: Handle) {
    h.id < reg.next && forall e | e in reg.entries :: e.id == h.id ==> e.kind == KIND_CURSOR
  }

  predicate Blocks(reg: Registry, decl: nat, h: Handle) {
    h.kind == KIND_LOCK_BLOCK && Entry(decl, KIND_LOCK_BLOCK, h.id) in reg.entries
  }

  predicate NodeOk(reg: Registry, decl: nat, objs: set<nat>, n: Node) {
    n.z < Z_LOCK_BACKDROP || n.owner.None? || Confined(reg, n.owner.value, objs)
    || CursorOnly(reg, n.owner.value) || Blocks(reg, decl, n.owner.value)
  }

  lemma NodeOkAfterDrop(reg: Registry, obj: nat, decl: nat, objs: set<nat>, n: Node)
    requires Valid(reg) && NodeOk(reg, decl, objs, n) && obj != decl
    ensures NodeOk(Drop(reg, obj), decl, objs, n)
  {
    DropExact(reg, obj);
  }

  lemma NodeOkGrows(reg: Registry, decl: nat, objs: set<nat>, more: set<nat>, n: Node)
    requires NodeOk(reg, decl, objs, n) && objs <= more
    ensures NodeOk(reg, decl, more, n)
  {
  }

  /** In a valid registry an id belongs to one entry. */
  lemma OneEntryAnId(r: Registry, e: Entry, f: Entry)
    requires Valid(r) && e in r.entries && f in r.entries && e.id == f.id
    ensures e == f
  {
    var i :| 0 <= i < |r.entries| && r.entries[i] == e;
    var j :| 0 <= j < |r.entries| && r.entries[j] == f;
  }

  lemma ForNames(reg: Registry, obj: nat, kind: nat) returns (e: Entry)
    requires Valid(reg) && reg.next < ID_WRAP - 1
    ensures var (r, h) := For(reg, obj, kind);
            && Valid(r) && e in r.entries && e.obj == obj && h == Handle(e.kind, e.id) && h.id < r.next
            && Confined(r, h, {obj})
  {
    ForExact(reg, obj, kind);
    var (r, h) := For(reg, obj, kind);
    e :| e in r.entries && e.obj == obj && h == Handle(e.kind, e.id);
    forall f | f in r.entries && f.id == h.id ensures f.obj == obj { OneEntryAnId(r, e, f); }
    var i :| 0 <= i < |r.entries| && r.entries[i] == e;
  }

  lemma ForAdds(reg: Registry, obj: nat, kind: nat)
    requires Valid(reg) && reg.next < ID_WRAP - 1
    ensures var (r, h) := For(reg, obj, kind);
            && reg.next <= r.next <= reg.next + 1
            && (forall e | e in reg.entries :: e in r.entries)
            && (forall e | e in r.entries :: e in reg.entries || (e.obj == obj && e.id == reg.next))
            && (Typed(reg, obj, kind) ==> Typed(r, obj, kind))
  {
    ForExact(reg, obj, kind);
    var (r, h) := For(reg, obj, kind);
    if Typed(reg, obj, kind) {
      forall f | f in r.entries && f.obj == obj ensures f.kind == kind {
        assert f in reg.entries || FindObject(reg.entries, obj) == |reg.entries|;
      }
    }
  }

  /** A handle just given out names its object and nothing else, for good. */
  lemma ForConfines(reg: Registry, obj: nat, kind: nat)
    requires Valid(reg) && reg.next < ID_WRAP - 1
    ensures var (r, h) := For(reg, obj, kind);
            && Valid(r) && reg.next <= r.next <= reg.next + 1
            && Confined(r, h, {obj})
            && (Typed(reg, obj, kind) ==> Typed(r, obj, kind) && h.kind == kind && Entry(obj, kind, h.id) in r.entries)
            && (forall e | e in reg.entries :: e in r.entries)
            && (forall e | e in r.entries :: e in reg.entries || (e.obj == obj && e.id == reg.next))
  {
    var e := ForNames(reg, obj, kind);
    ForAdds(reg, obj, kind);
    assert e == Entry(obj, e.kind, e.id);
  }

  // --- the section ---

  predicate AllOk(reg: Registry, decl: nat, objs: set<nat>, ns: seq<Node>) {
    forall n | n in ns :: NodeOk(reg, decl, objs, n)
  }

  lemma {:induction false} PartsOk(reg: Registry, h: Handle, z: int, ps: seq<Part>, decl: nat, objs: set<nat>)
    requires Valid(reg) && Confined(reg, h, objs)
    requires HostedObjects(reg, ps) <= objs
    ensures AllOk(reg, decl, objs, PartNodes(reg, h, z, ps))
    decreases |ps|
  {
    if ps != [] {
      PartsOk(reg, h, z, ps[1..], decl, objs);
      forall n | n in PartNode(reg, h, z, ps[0]) ensures NodeOk(reg, decl, objs, n) {
        if ps[0].Hosted? {
          if InFlow(ps[0]) {
            HostedConfined(reg, ps[0].client, objs);
          } else {
            DesktopIsBelowTheLock(ClientFloor(ps[0].element));
          }
        }
      }
    }
  }

  lemma HostedConfined(reg: Registry, client: Handle, objs: set<nat>)
    requires Valid(reg) && Get(reg, client).Some? && Get(reg, client).value.obj in objs
    ensures Confined(reg, client, objs)
  {
    GetExact(reg, client.kind, client.id);
    var e := Get(reg, client).value;
    assert Get(reg, Handle(client.kind, client.id)) == Some(e);
    var i :| 0 <= i < |reg.entries| && reg.entries[i] == e;
    forall f | f in reg.entries && f.id == client.id ensures f == e {
      var j :| 0 <= j < |reg.entries| && reg.entries[j] == f;
    }
  }

  /** A later registry resolves what an earlier one did, when nothing was dropped between. */
  predicate Extends(reg: Registry, later: Registry) {
    && reg.next <= later.next
    && (forall e | e in reg.entries :: e in later.entries)
    && (forall e | e in later.entries :: e in reg.entries || e.id >= reg.next)
  }

  lemma AllOkLater(reg: Registry, later: Registry, decl: nat, objs: set<nat>, ns: seq<Node>)
    requires AllOk(reg, decl, objs, ns) && Extends(reg, later)
    ensures AllOk(later, decl, objs, ns)
  {
    forall n | n in ns ensures NodeOk(later, decl, objs, n) {
      assert NodeOk(reg, decl, objs, n);
    }
  }

  lemma {:induction false} HostedSurvive(reg: Registry, later: Registry, ps: seq<Part>)
    requires Valid(reg) && Valid(later) && Extends(reg, later)
    ensures HostedObjects(reg, ps) <= HostedObjects(later, ps)
    decreases |ps|
  {
    if ps != [] {
      HostedSurvive(reg, later, ps[1..]);
      if InFlow(ps[0]) && Get(reg, ps[0].client).Some? {
        var c := ps[0].client;
        GetExact(reg, c.kind, c.id);
        GetExact(later, c.kind, c.id);
        assert Get(reg, Handle(c.kind, c.id)) == Get(later, Handle(c.kind, c.id));
      }
    }
  }

  lemma {:induction false} DrawinObjectsSnoc(reg: Registry, ds: seq<LockDrawin>, d: LockDrawin)
    ensures DrawinObjects(reg, ds + [d]) == DrawinObjects(reg, ds) + {d.obj} + HostedObjects(reg, d.parts)
    decreases |ds|
  {
    if ds == [] {
      assert [] + [d] == [d];
      assert [d][1..] == [];
    } else {
      assert (ds + [d])[1..] == ds[1..] + [d];
      DrawinObjectsSnoc(reg, ds[1..], d);
    }
  }

  lemma {:induction false} DrawinObjectsConcat(reg: Registry, ds: seq<LockDrawin>, more: seq<LockDrawin>)
    ensures DrawinObjects(reg, ds + more) == DrawinObjects(reg, ds) + DrawinObjects(reg, more)
    decreases |ds|
  {
    if ds == [] {
      assert [] + more == more;
    } else {
      assert (ds + more)[1..] == ds[1..] + more;
      DrawinObjectsConcat(reg, ds[1..], more);
    }
  }

  lemma {:induction false} DrawinObjectsSurvive(reg: Registry, later: Registry, ds: seq<LockDrawin>)
    requires Valid(reg) && Valid(later) && Extends(reg, later)
    ensures DrawinObjects(reg, ds) <= DrawinObjects(later, ds)
    decreases |ds|
  {
    if ds != [] {
      DrawinObjectsSurvive(reg, later, ds[1..]);
      HostedSurvive(reg, later, ds[0].parts);
    }
  }

  lemma AllOkGrows(reg: Registry, decl: nat, objs: set<nat>, more: set<nat>, ns: seq<Node>)
    requires AllOk(reg, decl, objs, ns) && objs <= more
    ensures AllOk(reg, decl, more, ns)
  {
    forall n | n in ns ensures NodeOk(reg, decl, more, n) { NodeOkGrows(reg, decl, objs, more, n); }
  }

  lemma ConfinedGrows(reg: Registry, h: Handle, objs: set<nat>, more: set<nat>)
    requires Confined(reg, h, objs) && objs <= more
    ensures Confined(reg, h, more)
  {
  }

  /** The lock drawins' nodes stand for those drawins and what their trees host in flow. */
  lemma {:induction false} DrawinsOk(reg: Registry, z: int, ds: seq<LockDrawin>, decl: nat)
    requires Valid(reg) && reg.next + |ds| < ID_WRAP - 1
    ensures var (r, ns) := DeclareDrawins(reg, z, ds);
            Valid(r) && Extends(reg, r) && r.next <= reg.next + |ds| && AllOk(r, decl, DrawinObjects(r, ds), ns)
    ensures forall e | e in DeclareDrawins(reg, z, ds).0.entries ::
              e in reg.entries || e.obj in (set d | d in ds :: d.obj)
    decreases |ds|
  {
    if ds != [] {
      var before, d := ds[..|ds| - 1], ds[|ds| - 1];
      assert ds == before + [d];
      DrawinsOk(reg, z, before, decl);
      var (r, ns) := DeclareDrawins(reg, z, before);
      var (r', h) := For(r, d.obj, KIND_DRAWIN);
      ForConfines(r, d.obj, KIND_DRAWIN);
      AllOkLater(r, r', decl, DrawinObjects(r, before), ns);
      DrawinObjectsSurvive(r, r', before);
      DrawinObjectsSnoc(r', before, d);
      var objs := DrawinObjects(r', ds);
      AllOkGrows(r', decl, DrawinObjects(r, before), objs, ns);
      ConfinedGrows(r', h, {d.obj}, objs);
      PartsOk(r', h, z, d.parts, decl, objs);
    }
  }

  lemma LeafOk(reg: Registry, obj: nat, kind: nat, z: int, box: Box, decl: nat)
    requires Valid(reg) && reg.next < ID_WRAP - 1
    ensures var (r, ns) := DeclareLeaf(reg, obj, kind, z, box);
            && Valid(r) && Extends(reg, r) && r.next <= reg.next + 1 && AllOk(r, decl, {obj}, ns)
            && forall e | e in r.entries :: e in reg.entries || e.obj == obj
  {
    ForConfines(reg, obj, kind);
  }

  lemma ExtendsChain(a: Registry, b: Registry, c: Registry)
    requires Extends(a, b) && Extends(b, c)
    ensures Extends(a, c)
  {
  }

  lemma AllOkConcat(reg: Registry, decl: nat, objs: set<nat>, a: seq<Node>, b: seq<Node>)
    requires AllOk(reg, decl, objs, a) && AllOk(reg, decl, objs, b)
    ensures AllOk(reg, decl, objs, a + b)
  {
    forall n | n in a + b ensures NodeOk(reg, decl, objs, n) { assert n in a || n in b; }
  }

  lemma Carry(reg: Registry, later: Registry, decl: nat, objs: set<nat>, more: set<nat>, ns: seq<Node>)
    requires AllOk(reg, decl, objs, ns) && Extends(reg, later) && objs <= more
    ensures AllOk(later, decl, more, ns)
  {
    AllOkLater(reg, later, decl, objs, ns);
    AllOkGrows(later, decl, objs, more, ns);
  }

  /** The registries a section passes through, in order. */
  function SectionPath(reg: Registry, decl: nat, i: Input): (Registry, Registry, Registry, Registry) {
    var r0 := For(reg, decl, KIND_LOCK_BLOCK).0;
    var r1 := DeclareDrawins(r0, Z_LOCK_COVER, i.covers).0;
    var r2 := DeclareDrawins(r1, Z_LOCK_SURFACE, Wanted(i.surface)).0;
    (r0, r1, r2, if i.lockSurface.None? then r2 else For(r2, i.lockSurface.value, KIND_LOCK).0)
  }

  lemma SectionPathOk(reg: Registry, decl: nat, i: Input)
    requires Valid(reg) && reg.next + Needs(i) < ID_WRAP
    ensures var (r0, r1, r2, r3) := SectionPath(reg, decl, i);
            && Valid(r0) && Valid(r1) && Valid(r2) && Valid(r3)
            && Extends(reg, r0) && Extends(r0, r1) && Extends(r1, r2) && Extends(r2, r3)
            && r0.next <= reg.next + 1 && r1.next <= reg.next + 1 + |i.covers|
            && r2.next <= reg.next + 2 + |i.covers| && r3.next <= reg.next + 3 + |i.covers|
  {
    var (r0, r1, r2, r3) := SectionPath(reg, decl, i);
    ForConfines(reg, decl, KIND_LOCK_BLOCK);
    DrawinsOk(r0, Z_LOCK_COVER, i.covers, decl);
    DrawinsOk(r1, Z_LOCK_SURFACE, Wanted(i.surface), decl);
    if i.lockSurface.Some? { ForConfines(r2, i.lockSurface.value, KIND_LOCK); }
  }

  /** A section registers its own objects and the output's backdrop, nothing else. */
  lemma SectionRegisters(reg: Registry, decl: nat, i: Input, e: Entry)
    requires Valid(reg) && reg.next + Needs(i) < ID_WRAP && Typed(reg, decl, KIND_LOCK_BLOCK)
    requires e in SectionPath(reg, decl, i).3.entries && e !in reg.entries
    ensures e.obj in RawObjects(i) || (e.obj == decl && e.kind == KIND_LOCK_BLOCK)
  {
    var (r0, r1, r2, r3) := SectionPath(reg, decl, i);
    SectionPathOk(reg, decl, i);
    if e in r0.entries {
      ForConfines(reg, decl, KIND_LOCK_BLOCK);
    } else if e in r1.entries {
      DrawinsOk(r0, Z_LOCK_COVER, i.covers, decl);
    } else if e in r2.entries {
      DrawinsOk(r1, Z_LOCK_SURFACE, Wanted(i.surface), decl);
    } else {
      ForConfines(r2, i.lockSurface.value, KIND_LOCK);
    }
  }

  lemma {:induction false} SectionDrawinsOk(reg: Registry, z: int, ds: seq<LockDrawin>, decl: nat, later: Registry,
                                            i: Input)
    requires ds == i.covers || ds == Wanted(i.surface)
    requires Valid(reg) && reg.next + |ds| < ID_WRAP - 1 && Valid(later) && Extends(DeclareDrawins(reg, z, ds).0, later)
    ensures AllOk(later, decl, SectionObjects(later, i), DeclareDrawins(reg, z, ds).1)
  {
    var (r, ns) := DeclareDrawins(reg, z, ds);
    DrawinsOk(reg, z, ds, decl);
    DrawinObjectsSurvive(r, later, ds);
    DrawinObjectsConcat(later, i.covers, Wanted(i.surface));
    Carry(r, later, decl, DrawinObjects(r, ds), SectionObjects(later, i), ns);
  }

  lemma SectionOk(reg: Registry, decl: nat, w: nat, h: nat, i: Input)
    requires Valid(reg) && reg.next + Needs(i) < ID_WRAP && Typed(reg, decl, KIND_LOCK_BLOCK)
    ensures var (r, ns) := LockSection(reg, decl, w, h, i);
            && r == SectionPath(reg, decl, i).3 && Valid(r) && Extends(reg, r) && r.next <= reg.next + |i.covers| + 3
            && AllOk(r, decl, SectionObjects(r, i), ns)
            && ns != [] && IsBackdrop(r, decl, w, h, ns[0])
  {
    var whole := Box(0, 0, w, h);
    var (r0, r1, r2, r3) := SectionPath(reg, decl, i);
    SectionPathOk(reg, decl, i);
    ExtendsChain(r1, r2, r3);
    ExtendsChain(r0, r1, r3);
    ExtendsChain(reg, r0, r3);
    var objs := SectionObjects(r3, i);
    var backdrop := DeclareLeaf(reg, decl, KIND_LOCK_BLOCK, Z_LOCK_BACKDROP, whole).1;
    ForConfines(reg, decl, KIND_LOCK_BLOCK);
    assert IsBackdrop(r0, decl, w, h, backdrop[0]);
    Carry(r0, r3, decl, {}, objs, backdrop);
    var covers := DeclareDrawins(r0, Z_LOCK_COVER, i.covers).1;
    SectionDrawinsOk(r0, Z_LOCK_COVER, i.covers, decl, r3, i);
    var surface := DeclareDrawins(r1, Z_LOCK_SURFACE, Wanted(i.surface)).1;
    SectionDrawinsOk(r1, Z_LOCK_SURFACE, Wanted(i.surface), decl, r3, i);
    var leaf := if i.lockSurface.None? then []
                else DeclareLeaf(r2, i.lockSurface.value, KIND_LOCK, Z_LOCK_SURFACE, whole).1;
    if i.lockSurface.Some? {
      LeafOk(r2, i.lockSurface.value, KIND_LOCK, Z_LOCK_SURFACE, whole, decl);
      AllOkGrows(r3, decl, {i.lockSurface.value}, objs, leaf);
    }
    AllOkConcat(r3, decl, objs, backdrop, covers);
    AllOkConcat(r3, decl, objs, backdrop + covers, surface);
    AllOkConcat(r3, decl, objs, backdrop + covers + surface, leaf);
    assert (backdrop + covers + surface + leaf)[0] == backdrop[0];
  }

  /** What an output that last drew a locked frame keeps showing, whatever is dropped later. */
  ghost predicate Guarded(reg: Registry, decl: nat, s: Shown) {
    s.Shown? && s.locked ==>
      && SortedByBand(s.order) && AllOk(reg, decl, s.section, s.order)
      && exists k :: 0 <= k < |s.order| && IsBackdrop(reg, decl, s.w, s.h, s.order[k])
  }

  predicate IsBackdrop(reg: Registry, decl: nat, w: nat, h: nat, n: Node) {
    n.z == Z_LOCK_BACKDROP && n.box == Box(0, 0, w, h) && n.owner.Some? && Blocks(reg, decl, n.owner.value)
  }

  /** The pass's nodes under a lock, before Clay sorts them. */
  lemma LockedSceneOk(reg: Registry, decl: nat, w: nat, h: nat, i: Input)
    requires Valid(reg) && reg.next + Needs(i) < ID_WRAP && Typed(reg, decl, KIND_LOCK_BLOCK)
    requires i.cursor.Some? ==>
               i.cursor.value.0 != decl && i.cursor.value.0 !in RawObjects(i)
                 && Typed(reg, i.cursor.value.0, KIND_CURSOR)
    ensures var (r, ns) := Scene(reg, decl, w, h, true, i);
            && Valid(r) && Extends(reg, r) && AllOk(r, decl, SectionObjects(r, i), ns)
            && exists n :: n in ns && IsBackdrop(r, decl, w, h, n)
  {
    var desktop := DesktopNodes(i.desktop);
    var (s, section) := LockSection(reg, decl, w, h, i);
    SectionOk(reg, decl, w, h, i);
    var (r, ns) := Scene(reg, decl, w, h, true, i);
    var cursor := ns[|desktop + section|..];
    assert ns == desktop + section + cursor;
    if i.cursor.Some? {
      assert Typed(s, i.cursor.value.0, KIND_CURSOR) by {
        forall e | e in s.entries && e.obj == i.cursor.value.0 ensures e.kind == KIND_CURSOR {
          if e !in reg.entries { SectionRegisters(reg, decl, i, e); }
        }
      }
      CursorOk(s, i.cursor.value.0, i.cursor.value.1, decl);
    }
    ExtendsChain(reg, s, r);
    var objs := SectionObjects(r, i);
    SectionObjectsSurvive(s, r, i);
    Carry(s, r, decl, SectionObjects(s, i), objs, section);
    DesktopNodesOk(i.desktop, r, decl, objs);
    AllOkConcat(r, decl, objs, desktop, section);
    AllOkGrows(r, decl, {}, objs, cursor);
    AllOkConcat(r, decl, objs, desktop + section, cursor);
    assert ns[|desktop|] == section[0] && IsBackdrop(r, decl, w, h, section[0]);
  }

  lemma {:induction false} DesktopNodesOk(ls: seq<Leaf>, reg: Registry, decl: nat, objs: set<nat>)
    ensures AllOk(reg, decl, objs, DesktopNodes(ls))
  {
    var ns := DesktopNodes(ls);
    forall n | n in ns ensures NodeOk(reg, decl, objs, n) {
      var k :| 0 <= k < |ns| && ns[k] == n;
      DesktopIsBelowTheLock(ls[k].of);
    }
  }

  lemma SceneOk(reg: Registry, decl: nat, w: nat, h: nat, i: Input, order: seq<Node>)
    requires Valid(reg) && reg.next + Needs(i) < ID_WRAP && Typed(reg, decl, KIND_LOCK_BLOCK)
    requires i.cursor.Some? ==>
               i.cursor.value.0 != decl && i.cursor.value.0 !in RawObjects(i)
                 && Typed(reg, i.cursor.value.0, KIND_CURSOR)
    requires DrawOrder(Scene(reg, decl, w, h, true, i).1, order)
    ensures var r := Scene(reg, decl, w, h, true, i).0;
            && Valid(r) && Extends(reg, r)
            && Guarded(r, decl, Shown(order, true, w, h, SectionObjects(r, i)))
  {
    LockedSceneOk(reg, decl, w, h, i);
    var (r, ns) := Scene(reg, decl, w, h, true, i);
    SameNodes(ns, order);
    var n :| n in ns && IsBackdrop(r, decl, w, h, n);
    var k :| 0 <= k < |order| && order[k] == n;
    assert IsBackdrop(r, decl, w, h, order[k]);
  }

  lemma SameNodes(ns: seq<Node>, order: seq<Node>)
    requires multiset(order) == multiset(ns)
    ensures forall n :: n in order <==> n in ns
  {
    forall n ensures n in order <==> n in ns {
      assert n in order <==> n in multiset(order);
      assert n in ns <==> n in multiset(ns);
    }
  }

  lemma CursorOk(reg: Registry, obj: nat, box: Box, decl: nat)
    requires Valid(reg) && reg.next < ID_WRAP - 1 && Typed(reg, obj, KIND_CURSOR)
    ensures var (r, ns) := DeclareLeaf(reg, obj, KIND_CURSOR, Z_CURSOR, box);
            Valid(r) && Extends(reg, r) && AllOk(r, decl, {}, ns)
  {
    ForConfines(reg, obj, KIND_CURSOR);
  }

  lemma SectionObjectsSurvive(reg: Registry, later: Registry, i: Input)
    requires Valid(reg) && Valid(later) && Extends(reg, later)
    ensures SectionObjects(reg, i) <= SectionObjects(later, i)
  {
    DrawinObjectsSurvive(reg, later, i.covers + Wanted(i.surface));
  }

  // --- the barrier ---

  /** Above the backdrop only the section's objects can take a point, and the backdrop ends the walk. */
  lemma {:induction false} BackdropEndsTheWalk(reg: Registry, admits: (Node, real, real) -> bool, order: seq<Node>,
      decl: nat, objs: set<nat>, w: nat, h: nat, k: nat, x: real, y: real)
    requires Valid(reg) && k < |order| && SortedByBand(order) && AllOk(reg, decl, objs, order)
    requires IsBackdrop(reg, decl, w, h, order[k]) && Within(Box(0, 0, w, h), x, y)
    ensures var r := Walk(reg, admits, order, x, y);
            r.Nothing? || (r.Taken? && r.who.obj in objs)
    decreases |order|
  {
    var n := order[|order| - 1];
    assert NodeOk(reg, decl, objs, n);
    if n.owner.Some? { GetExact(reg, n.owner.value.kind, n.owner.value.id); }
    if |order| - 1 == k {
      assert Get(reg, Handle(n.owner.value.kind, n.owner.value.id))
             == Some(Entry(decl, KIND_LOCK_BLOCK, n.owner.value.id));
    } else {
      assert n.z >= order[k].z;
      AnswerAboveBackdrop(reg, admits, n, decl, objs, x, y);
      if Answer(reg, admits, n, x, y).Missed? {
        BackdropEndsTheWalk(reg, admits, order[..|order| - 1], decl, objs, w, h, k, x, y);
      }
    }
  }

  lemma AnswerAboveBackdrop(reg: Registry, admits: (Node, real, real) -> bool, n: Node,
      decl: nat, objs: set<nat>, x: real, y: real)
    requires Valid(reg) && NodeOk(reg, decl, objs, n) && n.z >= Z_LOCK_BACKDROP
    ensures var r := Answer(reg, admits, n, x, y); r.Taken? ==> r.who.obj in objs
  {
    if n.owner.Some? {
      var h := n.owner.value;
      GetExact(reg, h.kind, h.id);
      assert Get(reg, Handle(h.kind, h.id)) == Get(reg, h);
      if Get(reg, h).Some? {
        var e := Get(reg, h).value;
        assert e in reg.entries && e.id == h.id && e.kind == h.kind;
      }
    }
  }

  // --- runs ---

  ghost predicate Ok(s: State) {
    && Valid(s.reg)
    && (forall o | o in s.outputs :: Typed(s.reg, s.outputs[o].decl, KIND_LOCK_BLOCK)
                                     && Guarded(s.reg, s.outputs[o].decl, s.outputs[o].shown))
    && (forall o, p | o in s.outputs && p in s.outputs && o != p :: s.outputs[o].decl != s.outputs[p].decl)
  }

  lemma GuardedLater(reg: Registry, later: Registry, decl: nat, sh: Shown)
    requires Guarded(reg, decl, sh) && Extends(reg, later)
    ensures Guarded(later, decl, sh)
  {
    if sh.Shown? && sh.locked {
      AllOkLater(reg, later, decl, sh.section, sh.order);
      var k :| 0 <= k < |sh.order| && IsBackdrop(reg, decl, sh.w, sh.h, sh.order[k]);
      assert IsBackdrop(later, decl, sh.w, sh.h, sh.order[k]);
    }
  }

  lemma GuardedAfterDrop(reg: Registry, obj: nat, decl: nat, sh: Shown)
    requires Valid(reg) && Guarded(reg, decl, sh) && obj != decl
    ensures Guarded(Drop(reg, obj), decl, sh)
  {
    if sh.Shown? && sh.locked {
      DropExact(reg, obj);
      var k :| 0 <= k < |sh.order| && IsBackdrop(reg, decl, sh.w, sh.h, sh.order[k]);
      assert IsBackdrop(Drop(reg, obj), decl, sh.w, sh.h, sh.order[k]);
      forall n | n in sh.order ensures NodeOk(Drop(reg, obj), decl, sh.section, n) {
        assert NodeOk(reg, decl, sh.section, n);
        NodeOkAfterDrop(reg, obj, decl, sh.section, n);
      }
    }
  }

  /** A frame's registrations: what the registry gains, and of which kinds. */
  lemma FrameOk(s: State, out: nat, input: Input, order: seq<Node>)
    requires Ok(s) && Possible(s, Frame(out, input, order))
    ensures Ok(After(s, Frame(out, input, order)))
  {
    var o := s.outputs[out];
    var t := After(s, Frame(out, input, order));
    FrameRegisters(s, out, input, order);
    if SessionLocked(s) {
      assert IsDecl(s, o.decl);
      SceneOk(s.reg, o.decl, o.w, o.h, input, order);
    }
    forall p | p in t.outputs
      ensures Typed(t.reg, t.outputs[p].decl, KIND_LOCK_BLOCK) && Guarded(t.reg, t.outputs[p].decl, t.outputs[p].shown)
    {
      assert p in s.outputs && t.outputs[p].decl == s.outputs[p].decl;
      assert IsDecl(s, s.outputs[p].decl);
      GuardedLater(s.reg, t.reg, s.outputs[p].decl, s.outputs[p].shown);
    }
  }

  lemma SceneRegisters(reg: Registry, decl: nat, w: nat, h: nat, locked: bool, i: Input, e: Entry)
    requires Valid(reg) && reg.next + Needs(i) < ID_WRAP && Typed(reg, decl, KIND_LOCK_BLOCK)
    requires e in Scene(reg, decl, w, h, locked, i).0.entries && e !in reg.entries
    ensures e.obj in RawObjects(i) || (i.cursor.Some? && e.obj == i.cursor.value.0)
            || (e.obj == decl && e.kind == KIND_LOCK_BLOCK)
  {
    var r := if locked then LockSection(reg, decl, w, h, i).0 else reg;
    if locked { SectionOk(reg, decl, w, h, i); }
    if e in r.entries {
      SectionRegisters(reg, decl, i, e);
    } else {
      ForConfines(r, i.cursor.value.0, KIND_CURSOR);
    }
  }

  lemma SceneExtends(reg: Registry, decl: nat, w: nat, h: nat, locked: bool, i: Input)
    requires Valid(reg) && reg.next + Needs(i) < ID_WRAP && Typed(reg, decl, KIND_LOCK_BLOCK)
    ensures Valid(Scene(reg, decl, w, h, locked, i).0) && Extends(reg, Scene(reg, decl, w, h, locked, i).0)
  {
    var r := if locked then LockSection(reg, decl, w, h, i).0 else reg;
    if locked { SectionOk(reg, decl, w, h, i); }
    if i.cursor.Some? {
      ForConfines(r, i.cursor.value.0, KIND_CURSOR);
      ExtendsChain(reg, r, For(r, i.cursor.value.0, KIND_CURSOR).0);
    }
  }

  lemma FrameRegisters(s: State, out: nat, input: Input, order: seq<Node>)
    requires Ok(s) && Possible(s, Frame(out, input, order))
    ensures var t := After(s, Frame(out, input, order));
            Valid(t.reg) && Extends(s.reg, t.reg) && forall d | IsDecl(s, d) :: Typed(t.reg, d, KIND_LOCK_BLOCK)
  {
    var o := s.outputs[out];
    var t := After(s, Frame(out, input, order));
    SceneExtends(s.reg, o.decl, o.w, o.h, SessionLocked(s), input);
    forall d, e | IsDecl(s, d) && e in t.reg.entries && e.obj == d ensures e.kind == KIND_LOCK_BLOCK {
      if e !in s.reg.entries {
        SceneRegisters(s.reg, o.decl, o.w, o.h, SessionLocked(s), input, e);
      }
    }
  }

  lemma RegisterOk(s: State, obj: nat, kind: nat)
    requires Ok(s) && Possible(s, Event.Register(obj, kind))
    ensures Ok(After(s, Event.Register(obj, kind)))
  {
    ForConfines(s.reg, obj, kind);
    var t := After(s, Event.Register(obj, kind));
    forall p | p in s.outputs
      ensures Typed(t.reg, s.outputs[p].decl, KIND_LOCK_BLOCK) && Guarded(t.reg, s.outputs[p].decl, s.outputs[p].shown)
    {
      assert IsDecl(s, s.outputs[p].decl);
      GuardedLater(s.reg, t.reg, s.outputs[p].decl, s.outputs[p].shown);
    }
  }

  lemma DropOk(s: State, obj: nat, keep: set<nat>)
    requires Ok(s) && keep <= s.outputs.Keys && forall p | p in keep :: s.outputs[p].decl != obj
    ensures Valid(Drop(s.reg, obj))
    ensures forall p | p in keep :: Typed(Drop(s.reg, obj), s.outputs[p].decl, KIND_LOCK_BLOCK)
                                    && Guarded(Drop(s.reg, obj), s.outputs[p].decl, s.outputs[p].shown)
  {
    DropExact(s.reg, obj);
    forall p | p in keep ensures Guarded(Drop(s.reg, obj), s.outputs[p].decl, s.outputs[p].shown) {
      GuardedAfterDrop(s.reg, obj, s.outputs[p].decl, s.outputs[p].shown);
    }
  }

  lemma StepOk(s: State, e: Event)
    requires Ok(s) && Possible(s, e)
    ensures Ok(After(s, e))
  {
    match e
    case Register(obj, kind) => RegisterOk(s, obj, kind);
    case Forget(obj) =>
      forall p | p in s.outputs ensures s.outputs[p].decl != obj { assert !IsDecl(s, obj); }
      DropOk(s, obj, s.outputs.Keys);
    case Unplug(out) =>
      if out in s.outputs { DropOk(s, s.outputs[out].decl, s.outputs.Keys - {out}); }
    case Plug(out, decl, x, y, w, h) =>
      forall p | p in s.outputs ensures s.outputs[p].decl != decl { assert !IsDecl(s, decl); }
    case Frame(out, input, order) => FrameOk(s, out, input, order);
    case _ =>
  }

  lemma {:induction false} RunOk(s: State, evs: seq<Event>)
    requires Ok(s) && Along(s, evs)
    ensures Ok(Run(s, evs))
    decreases |evs|
  {
    if evs != [] {
      StepOk(s, evs[0]);
      RunOk(After(s, evs[0]), evs[1..]);
    }
  }

  /** The ways out of a locked session: the current lock's unlock, and for Lua's lock an
      authenticated unlock or a forced one. */
  predicate Releases(s: State, e: Event) {
    || (e.LockUnlock? && s.current == Some(e.id))
    || (s.lua && ((e.LuaUnlock? && e.authenticated) || e.LuaForced?))
  }

  predicate NeverReleased(s: State, evs: seq<Event>)
    decreases |evs|
  {
    evs == [] || (!Releases(s, evs[0]) && NeverReleased(After(s, evs[0]), evs[1..]))
  }

  lemma {:induction false} StaysLocked(s: State, evs: seq<Event>)
    requires SessionLocked(s) && NeverReleased(s, evs)
    ensures SessionLocked(Run(s, evs))
    decreases |evs|
  {
    if evs != [] { StaysLocked(After(s, evs[0]), evs[1..]); }
  }

  predicate NeverAskedFor(evs: seq<Event>, id: nat) {
    forall i | 0 <= i < |evs| :: evs[i] != LockRequest(id)
  }

  /** A lock that died, or was turned away, has no say in any later state. */
  lemma {:induction false} DeadLockCannotUnlock(s: State, id: nat, evs: seq<Event>)
    requires s.current != Some(id) && NeverAskedFor(evs, id)
    ensures Run(s, evs).current != Some(id)
    ensures After(Run(s, evs), LockUnlock(id)) == Run(s, evs)
    decreases |evs|
  {
    if evs != [] {
      assert evs[0] != LockRequest(id);
      DeadLockCannotUnlock(After(s, evs[0]), id, evs[1..]);
    }
  }

  /** After the last event about the output that matters, it drew a frame and was not unplugged. */
  predicate FramedAndKept(evs: seq<Event>, out: nat) {
    evs != [] && ((evs[0].Frame? && evs[0].out == out && NeverUnplugged(evs[1..], out)) || FramedAndKept(evs[1..], out))
  }

  predicate NeverUnplugged(evs: seq<Event>, out: nat) {
    forall i | 0 <= i < |evs| :: evs[i] != Unplug(out)
  }

  predicate ShowsLocked(s: State, out: nat) {
    out in s.outputs && s.outputs[out].shown.Shown? && s.outputs[out].shown.locked
  }

  lemma StepShowsLocked(s: State, e: Event, out: nat)
    requires Possible(s, e) && SessionLocked(s) && ShowsLocked(s, out) && e != Unplug(out)
    ensures ShowsLocked(After(s, e), out)
  {
  }

  lemma {:induction false} LockedFrameStays(s: State, evs: seq<Event>, out: nat)
    requires Along(s, evs) && SessionLocked(s) && NeverReleased(s, evs) && NeverUnplugged(evs, out)
    requires ShowsLocked(s, out)
    ensures ShowsLocked(Run(s, evs), out)
    decreases |evs|
  {
    if evs != [] {
      assert evs[0] != Unplug(out);
      StepShowsLocked(s, evs[0], out);
      assert NeverUnplugged(evs[1..], out) by {
        forall i | 0 <= i < |evs[1..]| ensures evs[1..][i] != Unplug(out) { assert evs[1..][i] == evs[i + 1]; }
      }
      assert SessionLocked(After(s, evs[0])) by { StaysLockedStep(s, evs[0]); }
      LockedFrameStays(After(s, evs[0]), evs[1..], out);
    }
  }

  lemma StaysLockedStep(s: State, e: Event)
    requires SessionLocked(s) && !Releases(s, e)
    ensures SessionLocked(After(s, e))
  {
  }

  lemma {:induction false} LockedFrameShown(s: State, evs: seq<Event>, out: nat)
    requires Along(s, evs) && SessionLocked(s) && NeverReleased(s, evs) && FramedAndKept(evs, out)
    ensures ShowsLocked(Run(s, evs), out)
    decreases |evs|
  {
    StaysLockedStep(s, evs[0]);
    if evs[0].Frame? && evs[0].out == out && NeverUnplugged(evs[1..], out) {
      LockedFrameStays(After(s, evs[0]), evs[1..], out);
    } else {
      LockedFrameShown(After(s, evs[0]), evs[1..], out);
    }
  }

  /** hit_output */
  function HitOutput(s: State, admits: (Node, real, real) -> bool, out: nat, lx: real, ly: real): Outcome {
    if out !in s.outputs || s.outputs[out].shown.Blank? then Missed
    else
      var o := s.outputs[out];
      Walk(s.reg, admits, o.shown.order, lx - o.x as real, ly - o.y as real)
  }

  function HitOthers(s: State, admits: (Node, real, real) -> bool, mons: seq<nat>, under: Option<nat>,
                     lx: real, ly: real): Outcome {
    if mons == [] then Missed
    else
      var r := if Some(mons[0]) == under then Missed else HitOutput(s, admits, mons[0], lx, ly);
      if r.Missed? then HitOthers(s, admits, mons[1..], under, lx, ly) else r
  }

  /** declare_hit_at: the output under the point, then the others in list order. Missed and
      Nothing are both the empty answer. */
  function HitAt(s: State, admits: (Node, real, real) -> bool, mons: seq<nat>, under: Option<nat>,
                 lx: real, ly: real): Outcome {
    var r := if under.None? then Missed else HitOutput(s, admits, under.value, lx, ly);
    if r.Missed? then HitOthers(s, admits, mons, under, lx, ly) else r
  }

  /** The first output of the list that answers decides. */
  ghost predicate FirstAnswers(s: State, admits: (Node, real, real) -> bool, mons: seq<nat>, lx: real, ly: real,
                               r: Outcome) {
    if forall m | m in mons :: HitOutput(s, admits, m, lx, ly).Missed? then r == Missed
    else
      exists k :: 0 <= k < |mons| && !r.Missed? && r == HitOutput(s, admits, mons[k], lx, ly)
                  && forall j | 0 <= j < k :: HitOutput(s, admits, mons[j], lx, ly).Missed?
  }

  lemma {:induction false} OthersFirst(s: State, admits: (Node, real, real) -> bool, mons: seq<nat>,
                                       under: Option<nat>, lx: real, ly: real)
    requires under.Some? ==> HitOutput(s, admits, under.value, lx, ly).Missed?
    ensures FirstAnswers(s, admits, mons, lx, ly, HitOthers(s, admits, mons, under, lx, ly))
    decreases |mons|
  {
    if mons != [] {
      var rest, r := mons[1..], HitOthers(s, admits, mons, under, lx, ly);
      if HitOutput(s, admits, mons[0], lx, ly).Missed? {
        OthersFirst(s, admits, rest, under, lx, ly);
        assert forall m | m in mons :: m == mons[0] || m in rest;
        if !forall m | m in rest :: HitOutput(s, admits, m, lx, ly).Missed? {
          var k :| 0 <= k < |rest| && !r.Missed? && r == HitOutput(s, admits, rest[k], lx, ly)
            && forall j | 0 <= j < k :: HitOutput(s, admits, rest[j], lx, ly).Missed?;
          assert mons[k + 1] == rest[k] && forall j | 0 < j < k + 1 :: mons[j] == rest[j - 1];
        }
      }
    }
  }

  method DeclareHitAt(s: State, admits: (Node, real, real) -> bool, mons: seq<nat>, under: Option<nat>,
                      lx: real, ly: real) returns (r: Outcome)
    ensures r == HitAt(s, admits, mons, under, lx, ly)
    ensures FirstAnswers(s, admits, (if under.Some? then [under.value] else []) + mons, lx, ly, r)
  {
    HitAtFirst(s, admits, mons, under, lx, ly);
    if under.Some? {
      r := HitOutput(s, admits, under.value, lx, ly);
      if !r.Missed? { return; }
    }
    var i := 0;
    assert mons[0..] == mons;
    while i < |mons|
      invariant 0 <= i <= |mons|
      invariant HitAt(s, admits, mons, under, lx, ly) == HitOthers(s, admits, mons[i..], under, lx, ly)
    {
      assert mons[i..][1..] == mons[i + 1..];
      if Some(mons[i]) != under {
        r := HitOutput(s, admits, mons[i], lx, ly);
        if !r.Missed? { return; }
      }
      i := i + 1;
    }
    r := Missed;
  }

  lemma HitAtFirst(s: State, admits: (Node, real, real) -> bool, mons: seq<nat>, under: Option<nat>,
                   lx: real, ly: real)
    ensures FirstAnswers(s, admits, (if under.Some? then [under.value] else []) + mons, lx, ly,
                         HitAt(s, admits, mons, under, lx, ly))
  {
    var all := (if under.Some? then [under.value] else []) + mons;
    if under.None? {
      assert all == mons;
      OthersFirst(s, admits, mons, under, lx, ly);
    } else if !HitOutput(s, admits, under.value, lx, ly).Missed? {
      assert all[0] == under.value;
    } else {
      OthersFirst(s, admits, all, under, lx, ly);
      assert all[1..] == mons;
    }
  }

  /** The point lies in the box the output had when it last drew. */
  predicate InDrawnBox(s: State, out: nat, lx: real, ly: real) {
    out in s.outputs && s.outputs[out].shown.Shown? &&
    var o := s.outputs[out];
    Within(Box(0, 0, o.shown.w, o.shown.h), lx - o.x as real, ly - o.y as real)
  }

  /** From an accepted lock on, through the death of its client, failed frames, dropped
      handles, outputs coming and going and every desktop scene, a point an output has
      drawn since gets nothing or an object of the lock section, until the current lock's
      own unlock. */
  lemma {:induction false} LockedPointsReachOnlyTheSection(s: State, id: nat, evs: seq<Event>,
      admits: (Node, real, real) -> bool, mons: seq<nat>, out: nat, lx: real, ly: real)
    requires Ok(s) && s.current.None? && !s.lua
    requires var s0 := After(s, LockRequest(id));
             Along(s0, evs) && NeverReleased(s0, evs) && FramedAndKept(evs, out)
               && InDrawnBox(Run(s0, evs), out, lx, ly)
    ensures var last := Run(After(s, LockRequest(id)), evs);
            && SessionLocked(last)
            && var r := HitAt(last, admits, mons, Some(out), lx, ly);
               r.Nothing? || (r.Taken? && r.who.obj in last.outputs[out].shown.section)
  {
    var s0 := After(s, LockRequest(id));
    var last := Run(s0, evs);
    StepOk(s, LockRequest(id));
    RunOk(s0, evs);
    StaysLocked(s0, evs);
    LockedFrameShown(s0, evs, out);
    var o := last.outputs[out];
    var k :| 0 <= k < |o.shown.order| && IsBackdrop(last.reg, o.decl, o.shown.w, o.shown.h, o.shown.order[k]);
    BackdropEndsTheWalk(last.reg, admits, o.shown.order, o.decl, o.shown.section, o.shown.w, o.shown.h, k,
                        lx - o.x as real, ly - o.y as real);
  }

  // --- how far the barrier reaches ---

  /** The part hosts no one in flow, or a client that is itself one of the objects. */
  predicate HostsOnly(reg: Registry, p: Part, objs: set<nat>) {
    InFlow(p) ==> Get(reg, p.client).None? || Get(reg, p.client).value.obj in objs
  }

  /** The section's objects are the covers, the lock drawin and the lock client's surface,
      and nothing else, if and only if every client that a lock drawin's tree hosts in flow
      is gone or is one of them. */
  lemma PlainSectionIsLockOnly(reg: Registry, i: Input)
    ensures SectionObjects(reg, i) == RawObjects(i)
       <==> forall d, p | d in i.covers + Wanted(i.surface) && p in d.parts :: HostsOnly(reg, p, RawObjects(i))
  {
    var ds := i.covers + Wanted(i.surface);
    RawInSection(reg, ds);
    if forall d, p | d in ds && p in d.parts :: HostsOnly(reg, p, RawObjects(i)) {
      forall o | o in DrawinObjects(reg, ds) ensures o in RawObjects(i) {
        if !exists d :: d in ds && d.obj == o {
          var d, p := HostOf(reg, ds, o);
          assert HostsOnly(reg, p, RawObjects(i));
        }
      }
      assert SectionObjects(reg, i) == RawObjects(i);
    } else {
      var d, p :| d in ds && p in d.parts && !HostsOnly(reg, p, RawObjects(i));
      HostedInSection(reg, ds, d, p);
    }
  }

  lemma {:induction false} RawInSection(reg: Registry, ds: seq<LockDrawin>)
    ensures forall d | d in ds :: d.obj in DrawinObjects(reg, ds)
    decreases |ds|
  {
    if ds != [] {
      RawInSection(reg, ds[1..]);
      assert forall d | d in ds :: d == ds[0] || d in ds[1..];
    }
  }

  lemma {:induction false} HostedInSection(reg: Registry, ds: seq<LockDrawin>, d: LockDrawin, p: Part)
    requires d in ds && p in d.parts && InFlow(p) && Get(reg, p.client).Some?
    ensures Get(reg, p.client).value.obj in DrawinObjects(reg, ds)
    decreases |ds|
  {
    if d == ds[0] {
      HostedByParts(reg, d.parts, p);
    } else {
      assert d in ds[1..];
      HostedInSection(reg, ds[1..], d, p);
    }
  }

  lemma {:induction false} HostedByParts(reg: Registry, ps: seq<Part>, p: Part)
    requires p in ps && InFlow(p) && Get(reg, p.client).Some?
    ensures Get(reg, p.client).value.obj in HostedObjects(reg, ps)
    decreases |ps|
  {
    if p != ps[0] {
      assert p in ps[1..];
      HostedByParts(reg, ps[1..], p);
    }
  }

  /** An object of the section that is no lock drawin is hosted by one. */
  lemma {:induction false} HostOf(reg: Registry, ds: seq<LockDrawin>, o: nat) returns (d: LockDrawin, p: Part)
    requires o in DrawinObjects(reg, ds) && forall e | e in ds :: e.obj != o
    ensures d in ds && p in d.parts && InFlow(p) && Get(reg, p.client).Some? && Get(reg, p.client).value.obj == o
    decreases |ds|
  {
    assert ds[0] in ds;
    if o in HostedObjects(reg, ds[0].parts) {
      d := ds[0];
      p := PartOf(reg, d.parts, o);
    } else {
      assert forall e | e in ds[1..] :: e in ds;
      d, p := HostOf(reg, ds[1..], o);
    }
  }

  lemma {:induction false} PartOf(reg: Registry, ps: seq<Part>, o: nat) returns (p: Part)
    requires o in HostedObjects(reg, ps)
    ensures p in ps && InFlow(p) && Get(reg, p.client).Some? && Get(reg, p.client).value.obj == o
    decreases |ps|
  {
    if InFlow(ps[0]) && Get(reg, ps[0].client).Some? && Get(reg, ps[0].client).value.obj == o {
      p := ps[0];
    } else {
      p := PartOf(reg, ps[1..], o);
    }
  }

  const HostedPart := Hosted(Handle(1, 1), Client(false, false, false, LayerNormal), false, Box(0, 0, 10, 10))
  const HostingCover := LockDrawin(9, None, [HostedPart])
  const HostedNode := Node(Z_LOCK_COVER, Some(Handle(1, 1)), Box(0, 0, 10, 10))
  const ClientRegistered := Registry([Entry(7, 1, 1)], 2)
  const BackdropRegistered := Registry([Entry(7, 1, 1), Entry(5, KIND_LOCK_BLOCK, 2)], 3)
  const CoverRegistered := Registry([Entry(7, 1, 1), Entry(5, KIND_LOCK_BLOCK, 2), Entry(9, KIND_DRAWIN, 3)], 4)

  lemma HostingRegistered()
    ensures For(ClientRegistered, 5, KIND_LOCK_BLOCK) == (BackdropRegistered, Handle(KIND_LOCK_BLOCK, 2))
    ensures For(BackdropRegistered, 9, KIND_DRAWIN) == (CoverRegistered, Handle(KIND_DRAWIN, 3))
  {
    assert FindObject(ClientRegistered.entries, 5) == 1;
    assert ClientRegistered.entries + [Entry(5, KIND_LOCK_BLOCK, 2)] == BackdropRegistered.entries;
    assert FindObject(BackdropRegistered.entries, 9) == 2;
    assert BackdropRegistered.entries + [Entry(9, KIND_DRAWIN, 3)] == CoverRegistered.entries;
  }

  lemma HostingCoverDrawn()
    ensures DeclareDrawins(BackdropRegistered, Z_LOCK_COVER, [HostingCover]) == (CoverRegistered, [HostedNode])
  {
    HostingRegistered();
    assert FindId(CoverRegistered.entries, 1) == 0;
    assert PartNodes(CoverRegistered, Handle(KIND_DRAWIN, 3), Z_LOCK_COVER, [HostedPart]) == [HostedNode];
    assert DrawinNodes(CoverRegistered, Handle(KIND_DRAWIN, 3), Z_LOCK_COVER, HostingCover) == [HostedNode];
    var none: seq<LockDrawin> := [];
    assert [HostingCover][..0] == none;
    assert DeclareDrawins(BackdropRegistered, Z_LOCK_COVER, none) == (BackdropRegistered, []);
    assert [] + [HostedNode] == [HostedNode];
  }

  const Hosting := Input([], [HostingCover], None, None, None)

  lemma HostingSection()
    ensures LockSection(ClientRegistered, 5, 100, 100, Hosting) == (CoverRegistered, [BackdropNode, HostedNode])
  {
    HostingRegistered();
    HostingCoverDrawn();
    var none: seq<LockDrawin> := [];
    assert Wanted(None) == none && DeclareDrawins(CoverRegistered, Z_LOCK_SURFACE, none) == (CoverRegistered, []);
    assert [BackdropNode] + [HostedNode] + [] + [] == [BackdropNode, HostedNode];
  }

  /** A cover whose tree holds a normal client in flow lets that client take points. */
  lemma HostedClientTakesThePoint(admits: (Node, real, real) -> bool)
    requires admits(HostedNode, 1.0, 1.0)
    ensures var (r, ns) := LockSection(ClientRegistered, 5, 100, 100, Hosting);
            SortedByBand(ns) && Walk(r, admits, ns, 1.0, 1.0) == Taken(Entry(7, 1, 1))
  {
    HostingSection();
    assert FindId(CoverRegistered.entries, 1) == 0;
    assert Answer(CoverRegistered, admits, HostedNode, 1.0, 1.0) == Taken(Entry(7, 1, 1));
    var ns := [BackdropNode, HostedNode];
    assert ns[|ns| - 1] == HostedNode;
  }

  function DesktopPart(order: seq<Node>): seq<Node> {
    if order == [] then []
    else
      var rest := DesktopPart(order[..|order| - 1]);
      if order[|order| - 1].z < Z_LOCK_BACKDROP then rest + [order[|order| - 1]] else rest
  }

  /** Where no section node answers, the retained desktop does, exactly as if unlocked: a
      point past the box the output last drew is not held by the barrier. */
  lemma {:induction false} UncoveredPointsReachTheDesktop(reg: Registry, admits: (Node, real, real) -> bool,
      order: seq<Node>, x: real, y: real)
    requires forall n | n in order :: n.z >= Z_LOCK_BACKDROP ==> Answer(reg, admits, n, x, y).Missed?
    ensures Walk(reg, admits, order, x, y) == Walk(reg, admits, DesktopPart(order), x, y)
    decreases |order|
  {
    if order != [] {
      var before, n := order[..|order| - 1], order[|order| - 1];
      UncoveredPointsReachTheDesktop(reg, admits, before, x, y);
      if n.z < Z_LOCK_BACKDROP {
        var rest := DesktopPart(before);
        assert (rest + [n])[..|rest + [n]| - 1] == rest;
      }
    }
  }

  const Client7 := Handle(1, 1)
  const Desktop := Input([Leaf(Client(false, false, false, LayerNormal), Some(Client7), Box(0, 0, 200, 100))],
                         [], None, None, None)
  const DesktopNode := Node(Z_CLIENT_NORMAL, Some(Client7), Box(0, 0, 200, 100))
  const BackdropNode := Node(Z_LOCK_BACKDROP, Some(Handle(KIND_LOCK_BLOCK, 2)), Box(0, 0, 100, 100))

  /** A client reaches past a small output; the session locks, the output draws, and then
      it is enlarged. */
  const EnlargedAfterItsFrame: seq<Event> :=
    [LockRequest(1), Frame(1, Desktop, [DesktopNode, BackdropNode]), Place(1, 0, 0, 200, 100)]

  const OneClient := State(false, None, false, Registry([Entry(7, 1, 1)], 2),
                           map[1 := Output(5, 0, 0, 100, 100, Blank)])

  lemma {:induction false} ThreeSteps(s: State, a: Event, t: State, b: Event, u: State, c: Event, v: State)
    requires Steps(s, a, t) && Steps(t, b, u) && Steps(u, c, v)
    ensures Run(s, [a, b, c]) == v && Along(s, [a, b, c]) && NeverReleased(s, [a, b, c])
  {
    assert [c][1..] == [] && [b, c][1..] == [c] && [a, b, c][1..] == [b, c];
    assert Run(u, [c]) == Run(v, []) && Along(u, [c]) && NeverReleased(u, [c]);
    assert Run(t, [b, c]) == Run(u, [c]) && Along(t, [b, c]) && NeverReleased(t, [b, c]);
  }

  /** The event may happen in s, leaves t, and releases no lock. */
  predicate Steps(s: State, e: Event, t: State) {
    Possible(s, e) && After(s, e) == t && !Releases(s, e)
  }

  const LockedShown := Shown([DesktopNode, BackdropNode], true, 100, 100, {})
  const BothRegistered := Registry([Entry(7, 1, 1), Entry(5, KIND_LOCK_BLOCK, 2)], 3)

  lemma EnlargedSection()
    ensures LockSection(OneClient.reg, 5, 100, 100, Desktop) == (BothRegistered, [BackdropNode])
    ensures SectionObjects(BothRegistered, Desktop) == {} && RawObjects(Desktop) == {}
  {
    var reg, r := OneClient.reg, BothRegistered;
    assert FindObject(reg.entries, 5) == 1;
    assert reg.entries + [Entry(5, KIND_LOCK_BLOCK, 2)] == r.entries;
    assert For(reg, 5, KIND_LOCK_BLOCK) == (r, Handle(KIND_LOCK_BLOCK, 2));
    var none: seq<LockDrawin> := [];
    assert Wanted(None) == none && none + none == none;
    assert DeclareDrawins(r, Z_LOCK_COVER, none) == (r, []) && DeclareDrawins(r, Z_LOCK_SURFACE, none) == (r, []);
    assert [BackdropNode] + [] + [] + [] == [BackdropNode];
    assert DrawinObjects(r, none) == {};
  }

  lemma EnlargedScene()
    ensures Scene(OneClient.reg, 5, 100, 100, true, Desktop) == (BothRegistered, [DesktopNode, BackdropNode])
  {
    EnlargedSection();
    assert DesktopNodes(Desktop.desktop) == [DesktopNode];
    assert [DesktopNode] + [BackdropNode] + [] == [DesktopNode, BackdropNode];
  }

  function LockedAs(reg: Registry, out: Output): State {
    State(true, Some(1), false, reg, map[1 := out])
  }

  lemma EnlargedLock()
    ensures Steps(OneClient, LockRequest(1), LockedAs(OneClient.reg, Output(5, 0, 0, 100, 100, Blank)))
  {
  }

  lemma EnlargedFrame()
    ensures Steps(LockedAs(OneClient.reg, Output(5, 0, 0, 100, 100, Blank)),
                  Frame(1, Desktop, [DesktopNode, BackdropNode]),
                  LockedAs(BothRegistered, Output(5, 0, 0, 100, 100, LockedShown)))
  {
    var s := LockedAs(OneClient.reg, Output(5, 0, 0, 100, 100, Blank));
    EnlargedSection();
    EnlargedScene();
    assert SessionLocked(s) && s.reg == OneClient.reg;
    assert SortedByBand([DesktopNode, BackdropNode]);
    assert s.outputs[1 := Output(5, 0, 0, 100, 100, LockedShown)] == map[1 := Output(5, 0, 0, 100, 100, LockedShown)];
  }

  lemma EnlargedPlace()
    ensures Steps(LockedAs(BothRegistered, Output(5, 0, 0, 100, 100, LockedShown)), Place(1, 0, 0, 200, 100),
                  LockedAs(BothRegistered, Output(5, 0, 0, 200, 100, LockedShown)))
  {
    var s := LockedAs(BothRegistered, Output(5, 0, 0, 100, 100, LockedShown));
    assert s.outputs[1 := Output(5, 0, 0, 200, 100, LockedShown)] == map[1 := Output(5, 0, 0, 200, 100, LockedShown)];
  }

  lemma EnlargedHit(admits: (Node, real, real) -> bool)
    requires admits(DesktopNode, 150.0, 50.0)
    ensures Walk(BothRegistered, admits, LockedShown.order, 150.0, 50.0) == Taken(Entry(7, 1, 1))
  {
    assert FindId(BothRegistered.entries, 1) == 0;
    assert Answer(BothRegistered, admits, BackdropNode, 150.0, 50.0).Missed?;
    assert Answer(BothRegistered, admits, DesktopNode, 150.0, 50.0) == Taken(Entry(7, 1, 1));
    WalkOfTwo(BothRegistered, admits, DesktopNode, BackdropNode, 150.0, 50.0);
  }

  lemma WalkOfTwo(reg: Registry, admits: (Node, real, real) -> bool, low: Node, high: Node, x: real, y: real)
    requires Answer(reg, admits, high, x, y).Missed?
    ensures Walk(reg, admits, [low, high], x, y) == Answer(reg, admits, low, x, y)
  {
    assert [low, high][..1] == [low] && [low][..0] == [];
    assert Walk(reg, admits, [], x, y) == Missed;
  }

  /** The output under the point answers for all when it answers. */
  lemma UnderAnswers(s: State, admits: (Node, real, real) -> bool, mons: seq<nat>, out: nat, lx: real, ly: real)
    requires !HitOutput(s, admits, out, lx, ly).Missed?
    ensures HitAt(s, admits, mons, Some(out), lx, ly) == HitOutput(s, admits, out, lx, ly)
  {
  }

  lemma HitOutputWalks(s: State, admits: (Node, real, real) -> bool, out: nat, x: real, y: real)
    requires out in s.outputs && s.outputs[out].shown.Shown? && s.outputs[out].x == 0 && s.outputs[out].y == 0
    ensures HitOutput(s, admits, out, x, y) == Walk(s.reg, admits, s.outputs[out].shown.order, x, y)
  {
    assert x - 0 as real == x && y - 0 as real == y;
  }

  lemma EnlargedAnswer(last: State, admits: (Node, real, real) -> bool)
    requires last.reg == BothRegistered && 1 in last.outputs
    requires last.outputs[1] == Output(5, 0, 0, 200, 100, LockedShown) && admits(DesktopNode, 150.0, 50.0)
    ensures HitOutput(last, admits, 1, 150.0, 50.0) == Taken(Entry(7, 1, 1))
  {
    HitOutputWalks(last, admits, 1, 150.0, 50.0);
    EnlargedHit(admits);
  }

  lemma EnlargedRun() returns (last: State)
    ensures Along(OneClient, EnlargedAfterItsFrame) && NeverReleased(OneClient, EnlargedAfterItsFrame)
    ensures Run(OneClient, EnlargedAfterItsFrame) == last
    ensures last == LockedAs(BothRegistered, Output(5, 0, 0, 200, 100, LockedShown))
  {
    EnlargedLock();
    EnlargedFrame();
    EnlargedPlace();
    last := LockedAs(BothRegistered, Output(5, 0, 0, 200, 100, LockedShown));
    ThreeSteps(OneClient, LockRequest(1), LockedAs(OneClient.reg, Output(5, 0, 0, 100, 100, Blank)),
               Frame(1, Desktop, [DesktopNode, BackdropNode]),
               LockedAs(BothRegistered, Output(5, 0, 0, 100, 100, LockedShown)),
               Place(1, 0, 0, 200, 100), last);
  }

  /** The enlarged output, still locked and showing its locked frame: a point in the new
      part reaches the desktop's client, if the client takes it. */
  lemma EnlargedOutputReachesTheDesktop(admits: (Node, real, real) -> bool)
    requires admits(DesktopNode, 150.0, 50.0)
    ensures Along(OneClient, EnlargedAfterItsFrame) && NeverReleased(OneClient, EnlargedAfterItsFrame)
    ensures var last := Run(OneClient, EnlargedAfterItsFrame);
            && SessionLocked(last) && ShowsLocked(last, 1)
            && HitAt(last, admits, [1], Some(1), 150.0, 50.0) == Taken(Entry(7, 1, 1))
  {
    var last := EnlargedRun();
    EnlargedAnswer(last, admits);
    UnderAnswers(last, admits, [1], 1, 150.0, 50.0);
    assert LockedShown.locked && ShowsLocked(last, 1);
  }

  /** The statics locked and cur_lock of protocols.c and lua_locked of luaa.c. */
  class Session {
    var locked: bool
    var current: Option<nat>
    var lua: bool

    predicate Is(s: State)
      reads this
    {
      locked == s.locked && current == s.current && lua == s.lua
    }

    /** True when the request is taken, false when the new lock object is destroyed. */
    method LockSession(id: nat, ghost s: State) returns (accepted: bool)
      requires Is(s)
      modifies this
      ensures Is(After(s, LockRequest(id))) && (accepted ==> SessionLocked(After(s, LockRequest(id))))
      ensures accepted <==> old(current).None? && !old(lua)
      ensures if accepted then locked && current == Some(id) && lua == old(lua)
              else locked == old(locked) && current == old(current) && lua == old(lua)
    {
      if current.Some? || lua { return false; }
      current := Some(id);
      locked := true;
      accepted := true;
    }

    method DestroyLock(unlock: bool, ghost s: State)
      requires Is(s) && current.Some?
      modifies this
      ensures Is(After(s, if unlock then LockUnlock(old(current).value) else LockDestroyed(old(current).value)))
      ensures (locked <==> !unlock) && current == None && lua == old(lua)
    {
      locked := !unlock;
      current := None;
    }

    method ActivateLua(hasSurface: bool, ghost s: State) returns (active: bool)
      requires Is(s)
      modifies this
      ensures Is(After(s, LuaLock(hasSurface))) && active == lua
      ensures lua <==> old(lua) || (hasSurface && !old(locked))
      ensures locked == old(locked) && current == old(current)
    {
      if lua { return true; }
      if !hasSurface || locked { return false; }
      lua := true;
      active := true;
    }
  }

  /** The two lock mechanisms never hold the session together. */
  lemma {:induction false} NeverBothLocks(s: State, evs: seq<Event>)
    requires !(s.locked && s.lua) && (s.current.Some? ==> s.locked)
    ensures !(Run(s, evs).locked && Run(s, evs).lua) && (Run(s, evs).current.Some? ==> Run(s, evs).locked)
    decreases |evs|
  {
    if evs != [] { NeverBothLocks(After(s, evs[0]), evs[1..]); }
  }

  // --- where outputs are ---

  /** A point is taken by what the output drew under it, from wherever the output was last
      put; no other output's points change. */
  lemma PointsMoveWithTheOutput(s: State, out: nat, x: int, y: int, w: nat, h: nat,
      admits: (Node, real, real) -> bool, px: real, py: real, other: nat)
    requires out in s.outputs && s.outputs[out].shown.Shown?
    ensures var t := After(s, Place(out, x, y, w, h));
            && t.outputs.Keys == s.outputs.Keys && t.reg == s.reg && t.outputs[out].shown == s.outputs[out].shown
            && t.outputs[out].w == w && t.outputs[out].h == h
            && HitOutput(t, admits, out, x as real + px, y as real + py)
               == Walk(s.reg, admits, s.outputs[out].shown.order, px, py)
            && (other != out ==> HitOutput(t, admits, other, px, py) == HitOutput(s, admits, other, px, py))
  {
    assert x as real + px - x as real == px && y as real + py - y as real == py;
  }

  lemma HitFromThePlace(s: State, out: nat, admits: (Node, real, real) -> bool, px: real, py: real)
    requires out in s.outputs && s.outputs[out].shown.Shown?
    ensures var o := s.outputs[out];
            HitOutput(s, admits, out, o.x as real + px, o.y as real + py) == Walk(s.reg, admits, o.shown.order, px, py)
  {
    var o := s.outputs[out];
    assert o.x as real + px - o.x as real == px && o.y as real + py - o.y as real == py;
  }

  lemma FrameIsShown(s: State, out: nat, input: Input, order: seq<Node>)
    requires out in s.outputs
    ensures var t := After(s, Frame(out, input, order));
            && out in t.outputs && t.outputs[out].x == s.outputs[out].x && t.outputs[out].y == s.outputs[out].y
            && t.outputs[out].shown.Shown? && t.outputs[out].shown.order == order
  {
  }

  /** A new output takes no point before its first frame, and then those of its place. */
  lemma NewOutputDrawsFirst(s: State, out: nat, decl: nat, x: int, y: int, w: nat, h: nat, input: Input,
      order: seq<Node>, admits: (Node, real, real) -> bool, px: real, py: real)
    ensures var t := After(s, Plug(out, decl, x, y, w, h)); var u := After(t, Frame(out, input, order));
            && out in t.outputs && t.outputs[out].w == w && t.outputs[out].h == h
            && HitOutput(t, admits, out, px, py) == Missed
            && HitOutput(u, admits, out, x as real + px, y as real + py) == Walk(u.reg, admits, order, px, py)
  {
    var t := After(s, Plug(out, decl, x, y, w, h));
    FrameIsShown(t, out, input, order);
    HitFromThePlace(After(t, Frame(out, input, order)), out, admits, px, py);
  }

  /** An output that goes takes its backdrop's handle along. */
  lemma UnplugForgetsTheBackdrop(s: State, out: nat)
    requires Ok(s) && out in s.outputs
    ensures var t := After(s, Unplug(out));
            && t.outputs == s.outputs - {out} && forall e | e in t.reg.entries :: e.obj != s.outputs[out].decl
  {
    DropExact(s.reg, s.outputs[out].decl);
  }

  // --- the end of the barrier ---

  /** Over every run, an event ends a locked session if and only if it is the current lock's
      own unlock or releases Lua's lock; after an unlock no lock is current. */
  lemma OnlyAReleaseUnlocks(s: State, evs: seq<Event>, e: Event)
    requires !(s.locked && s.lua) && (s.current.Some? ==> s.locked) && SessionLocked(Run(s, evs))
    ensures !SessionLocked(After(Run(s, evs), e)) <==> Releases(Run(s, evs), e)
    ensures e.LockUnlock? || e.LockDestroyed? ==> After(Run(s, evs), e).current != Some(e.id)
  {
    NeverBothLocks(s, evs);
  }

  /** Of the nodes of an order drawn unlocked only the cursor's is at or above the backdrop. */
  lemma UnlockedSceneIsBare(reg: Registry, decl: nat, w: nat, h: nat, i: Input, n: Node)
    requires n in Scene(reg, decl, w, h, false, i).1 && n.z >= Z_LOCK_BACKDROP
    ensures i.cursor.Some?
    ensures n == Node(Z_CURSOR, Some(For(reg, i.cursor.value.0, KIND_CURSOR).1), i.cursor.value.1)
  {
    var desktop := DesktopNodes(i.desktop);
    if n in desktop {
      var k :| 0 <= k < |desktop| && desktop[k] == n;
      DesktopIsBelowTheLock(i.desktop[k].of);
    }
  }

  lemma CursorPasses(reg: Registry, obj: nat, box: Box, admits: (Node, real, real) -> bool, x: real, y: real)
    requires Valid(reg) && reg.next < ID_WRAP - 1 && Typed(reg, obj, KIND_CURSOR)
    ensures var (r, h) := For(reg, obj, KIND_CURSOR);
            Answer(r, admits, Node(Z_CURSOR, Some(h), box), x, y).Missed?
  {
    ForConfines(reg, obj, KIND_CURSOR);
    var (r, h) := For(reg, obj, KIND_CURSOR);
    GetExact(r, h.kind, h.id);
    assert Get(r, Handle(h.kind, h.id)) == Get(r, h);
  }

  /** A frame drawn unlocked: the output shows it, nothing of a lock is in it, and a point
      reaches what the desktop alone gives. */
  lemma UnlockedFrameShowsTheDesktop(s: State, out: nat, input: Input, order: seq<Node>,
      admits: (Node, real, real) -> bool, x: real, y: real)
    requires Ok(s) && !SessionLocked(s) && Possible(s, Frame(out, input, order))
    ensures var t := After(s, Frame(out, input, order));
            && out in t.outputs && t.outputs[out].shown.Shown? && t.outputs[out].shown.order == order
            && !ShowsLocked(t, out)
            && (forall n | n in order && n.z >= Z_LOCK_BACKDROP :: n.z == Z_CURSOR)
            && Walk(t.reg, admits, order, x, y) == Walk(t.reg, admits, DesktopPart(order), x, y)
  {
    var o, t := s.outputs[out], After(s, Frame(out, input, order));
    SameNodes(Scene(s.reg, o.decl, o.w, o.h, false, input).1, order);
    forall n | n in order && n.z >= Z_LOCK_BACKDROP
      ensures n.z == Z_CURSOR && Answer(t.reg, admits, n, x, y).Missed?
    {
      UnlockedSceneIsBare(s.reg, o.decl, o.w, o.h, input, n);
      CursorPasses(s.reg, input.cursor.value.0, input.cursor.value.1, admits, x, y);
    }
    UncoveredPointsReachTheDesktop(t.reg, admits, order, x, y);
  }

  /** The barrier ends: after the release the next frame of an output gives its points back
      to the desktop. */
  lemma ReleaseEndsTheBarrier(s: State, e: Event, out: nat, input: Input, order: seq<Node>,
      admits: (Node, real, real) -> bool, x: real, y: real)
    requires Ok(s) && !(s.locked && s.lua) && (s.current.Some? ==> s.locked)
    requires Releases(s, e) && Possible(After(s, e), Frame(out, input, order))
    ensures var t := After(After(s, e), Frame(out, input, order));
            && !SessionLocked(t) && t.current.None?
            && out in t.outputs && t.outputs[out].shown.Shown? && t.outputs[out].shown.order == order
            && !ShowsLocked(t, out)
            && Walk(t.reg, admits, order, x, y) == Walk(t.reg, admits, DesktopPart(order), x, y)
  {
    StepOk(s, e);
    UnlockedFrameShowsTheDesktop(After(s, e), out, input, order, admits, x, y);
  }

  // --- what a frame shows ---

  /** A hosted client that is there is one node: in flow in the normal band or at the floor
      it takes its host's band, else its own, the negative ones raised to the flow's. */
  lemma HostedClientsBand(reg: Registry, h: Handle, z: int, p: Part)
    requires p.Hosted? && Get(reg, p.client).Some?
    ensures PartNode(reg, h, z, p) ==
              [Node(if !p.floating && (Z(p.element) == Z_CLIENT_NORMAL || Z(p.element) <= 0) then z
                    else if Z(p.element) < 0 then 0 else Z(p.element), Some(p.client), p.area)]
  {
  }

  /** A floating composite of a lock drawin is drawn with the desktop, below the backdrop. */
  lemma FloatingPartsStayBelow(reg: Registry, h: Handle, z: int, p: Part, n: Node)
    requires p.Hosted? && p.floating && n in PartNode(reg, h, z, p)
    ensures n.z < Z_LOCK_BACKDROP && n.owner == Some(p.client) && n.box == p.area
  {
    DesktopIsBelowTheLock(ClientFloor(p.element));
  }

  /** The pointer image is in every frame that has one, locked or not, in the topmost band. */
  lemma FrameShowsTheCursor(s: State, out: nat, input: Input, order: seq<Node>)
    requires Ok(s) && Possible(s, Frame(out, input, order)) && input.cursor.Some?
    ensures ShownAs(After(s, Frame(out, input, order)).reg, order, Z_CURSOR, input.cursor.value.0, input.cursor.value.1)
    ensures forall n | n in order :: n.z <= Z_CURSOR
  {
    var o, t := s.outputs[out], After(s, Frame(out, input, order));
    SceneShowsTheCursor(s.reg, o.decl, o.w, o.h, SessionLocked(s), input);
    var ns := Scene(s.reg, o.decl, o.w, o.h, SessionLocked(s), input).1;
    SameNodes(ns, order);
    ShownLater(t.reg, t.reg, ns, order, Z_CURSOR, input.cursor.value.0, input.cursor.value.1);
    forall n | n in order ensures n.z <= Z_CURSOR {
      SceneBelowTheCursor(s.reg, o.decl, o.w, o.h, SessionLocked(s), input, n);
    }
  }

  lemma SceneShowsTheCursor(reg: Registry, decl: nat, w: nat, h: nat, locked: bool, i: Input)
    requires Valid(reg) && reg.next + Needs(i) < ID_WRAP && Typed(reg, decl, KIND_LOCK_BLOCK) && i.cursor.Some?
    ensures var (r, ns) := Scene(reg, decl, w, h, locked, i);
            ShownAs(r, ns, Z_CURSOR, i.cursor.value.0, i.cursor.value.1)
  {
    var r := if locked then LockSection(reg, decl, w, h, i).0 else reg;
    if locked { SectionOk(reg, decl, w, h, i); }
    LeafShown(r, i.cursor.value.0, KIND_CURSOR, Z_CURSOR, i.cursor.value.1);
    var (later, leaf) := DeclareLeaf(r, i.cursor.value.0, KIND_CURSOR, Z_CURSOR, i.cursor.value.1);
    ShownLater(later, later, leaf, Scene(reg, decl, w, h, locked, i).1, Z_CURSOR, i.cursor.value.0, i.cursor.value.1);
  }

  lemma {:induction false} PartsBelow(reg: Registry, h: Handle, z: int, ps: seq<Part>, n: Node)
    requires n in PartNodes(reg, h, z, ps)
    ensures n.z <= z || n.z < Z_LOCK_BACKDROP
    decreases |ps|
  {
    if n in PartNode(reg, h, z, ps[0]) {
      if ps[0].Hosted? { DesktopIsBelowTheLock(ClientFloor(ps[0].element)); }
    } else {
      PartsBelow(reg, h, z, ps[1..], n);
    }
  }

  lemma {:induction false} DrawinsBelow(reg: Registry, z: int, ds: seq<LockDrawin>, n: Node)
    requires n in DeclareDrawins(reg, z, ds).1
    ensures n.z <= z || n.z < Z_LOCK_BACKDROP
    decreases |ds|
  {
    var (r, ns) := DeclareDrawins(reg, z, ds[..|ds| - 1]);
    if n in ns {
      DrawinsBelow(reg, z, ds[..|ds| - 1], n);
    } else {
      var d := ds[|ds| - 1];
      var (r', h) := For(r, d.obj, KIND_DRAWIN);
      assert n in DrawinNodes(r', h, z, d);
      if n in PartNodes(r', h, z, d.parts) { PartsBelow(r', h, z, d.parts, n); }
    }
  }

  lemma SceneBelowTheCursor(reg: Registry, decl: nat, w: nat, h: nat, locked: bool, i: Input, n: Node)
    requires n in Scene(reg, decl, w, h, locked, i).1
    ensures n.z <= Z_CURSOR
  {
    var desktop := DesktopNodes(i.desktop);
    if n in desktop {
      var k :| 0 <= k < |desktop| && desktop[k] == n;
      DesktopIsBelowTheLock(i.desktop[k].of);
    } else if locked && n in LockSection(reg, decl, w, h, i).1 {
      SectionBelowTheCursor(reg, decl, w, h, i, n);
    }
  }

  lemma SectionBelowTheCursor(reg: Registry, decl: nat, w: nat, h: nat, i: Input, n: Node)
    requires n in LockSection(reg, decl, w, h, i).1
    ensures n.z <= Z_LOCK_SURFACE
  {
    var (r0, r1, r2, r3) := SectionPath(reg, decl, i);
    if n in DeclareDrawins(r0, Z_LOCK_COVER, i.covers).1 {
      DrawinsBelow(r0, Z_LOCK_COVER, i.covers, n);
    } else if n in DeclareDrawins(r1, Z_LOCK_SURFACE, Wanted(i.surface)).1 {
      DrawinsBelow(r1, Z_LOCK_SURFACE, Wanted(i.surface), n);
    }
  }

  /** The handle was given to the object. */
  predicate Names(reg: Registry, h: Handle, obj: nat) {
    exists e :: e in reg.entries && e.obj == obj && h == Handle(e.kind, e.id)
  }

  lemma NamesResolves(reg: Registry, h: Handle, obj: nat)
    requires Valid(reg) && Names(reg, h, obj)
    ensures Get(reg, h).Some? && Get(reg, h).value.obj == obj
  {
    var e :| e in reg.entries && e.obj == obj && h == Handle(e.kind, e.id);
    GetExact(reg, h.kind, h.id);
    assert Get(reg, Handle(h.kind, h.id)) == Get(reg, h);
    OneEntryAnId(reg, e, Get(reg, h).value);
  }

  /** A node of this band and box stands for the object. */
  ghost predicate ShownAs(reg: Registry, ns: seq<Node>, z: int, obj: nat, box: Box) {
    exists n :: n in ns && n.z == z && n.box == box && n.owner.Some? && Names(reg, n.owner.value, obj)
  }

  lemma ShownLater(reg: Registry, later: Registry, ns: seq<Node>, more: seq<Node>, z: int, obj: nat, box: Box)
    requires ShownAs(reg, ns, z, obj, box) && Extends(reg, later) && forall n | n in ns :: n in more
    ensures ShownAs(later, more, z, obj, box)
  {
    var n :| n in ns && n.z == z && n.box == box && n.owner.Some? && Names(reg, n.owner.value, obj);
    assert n in more && Names(later, n.owner.value, obj);
  }

  lemma {:induction false} OwnPartShown(reg: Registry, h: Handle, z: int, ps: seq<Part>, box: Box)
    requires Own(box) in ps
    ensures Node(z, Some(h), box) in PartNodes(reg, h, z, ps)
    decreases |ps|
  {
    if ps[0] != Own(box) {
      assert Own(box) in ps[1..];
      OwnPartShown(reg, h, z, ps[1..], box);
    }
  }

  lemma LastDrawinShown(reg: Registry, z: int, ds: seq<LockDrawin>, box: Box)
    requires ds != [] && Own(box) in ds[|ds| - 1].parts
    requires Valid(DeclareDrawins(reg, z, ds[..|ds| - 1]).0)
             && DeclareDrawins(reg, z, ds[..|ds| - 1]).0.next < ID_WRAP - 1
    ensures ShownAs(DeclareDrawins(reg, z, ds).0, DeclareDrawins(reg, z, ds).1, z, ds[|ds| - 1].obj, box)
  {
    var d := ds[|ds| - 1];
    var (r, ns) := DeclareDrawins(reg, z, ds[..|ds| - 1]);
    var e := ForNames(r, d.obj, KIND_DRAWIN);
    var (r', h) := For(r, d.obj, KIND_DRAWIN);
    OwnPartShown(r', h, z, d.parts, box);
    var n := Node(z, Some(h), box);
    assert n in DrawinNodes(r', h, z, d) && n in DeclareDrawins(reg, z, ds).1;
    assert Names(r', h, d.obj);
  }

  /** Every box of a lock drawin's own is drawn in the band, under a handle of the drawin. */
  lemma {:induction false} DrawinsShown(reg: Registry, z: int, ds: seq<LockDrawin>, d: LockDrawin, box: Box)
    requires Valid(reg) && reg.next + |ds| < ID_WRAP - 1 && d in ds && Own(box) in d.parts
    ensures ShownAs(DeclareDrawins(reg, z, ds).0, DeclareDrawins(reg, z, ds).1, z, d.obj, box)
    decreases |ds|
  {
    var k := |ds| - 1;
    var before := ds[..k];
    assert ds == before + [ds[k]];
    DrawinsOk(reg, z, before, 0);
    if d in before {
      DrawinsShown(reg, z, before, d, box);
      var (r, ns) := DeclareDrawins(reg, z, before);
      ForConfines(r, ds[k].obj, KIND_DRAWIN);
      ShownLater(r, DeclareDrawins(reg, z, ds).0, ns, DeclareDrawins(reg, z, ds).1, z, d.obj, box);
    } else {
      LastDrawinShown(reg, z, ds, box);
    }
  }

  /** A lock drawin's shadow is right under the drawin. */
  lemma {:induction false} ShadowsShown(reg: Registry, z: int, ds: seq<LockDrawin>, d: LockDrawin)
    requires d in ds && d.shadow.Some?
    ensures Node(z - 1, None, d.shadow.value) in DeclareDrawins(reg, z, ds).1
    decreases |ds|
  {
    var before := ds[..|ds| - 1];
    assert ds == before + [ds[|ds| - 1]];
    if d in before { ShadowsShown(reg, z, before, d); }
  }

  /** Every box of the drawins is drawn, and their shadows right under them. */
  ghost predicate ShowsDrawins(reg: Registry, ns: seq<Node>, z: int, ds: seq<LockDrawin>) {
    && (forall d, box | d in ds && Own(box) in d.parts :: ShownAs(reg, ns, z, d.obj, box))
    && (forall d | d in ds && d.shadow.Some? :: Node(z - 1, None, d.shadow.value) in ns)
  }

  lemma ShowsDrawinsLater(reg: Registry, later: Registry, ns: seq<Node>, more: seq<Node>, z: int, ds: seq<LockDrawin>)
    requires ShowsDrawins(reg, ns, z, ds) && Extends(reg, later) && forall n | n in ns :: n in more
    ensures ShowsDrawins(later, more, z, ds)
  {
    forall d, box | d in ds && Own(box) in d.parts ensures ShownAs(later, more, z, d.obj, box) {
      ShownLater(reg, later, ns, more, z, d.obj, box);
    }
  }

  lemma DeclaredDrawinsShow(reg: Registry, z: int, ds: seq<LockDrawin>)
    requires Valid(reg) && reg.next + |ds| < ID_WRAP - 1
    ensures ShowsDrawins(DeclareDrawins(reg, z, ds).0, DeclareDrawins(reg, z, ds).1, z, ds)
  {
    var (r, ns) := DeclareDrawins(reg, z, ds);
    forall d, box | d in ds && Own(box) in d.parts ensures ShownAs(r, ns, z, d.obj, box) {
      DrawinsShown(reg, z, ds, d, box);
    }
    forall d | d in ds && d.shadow.Some? ensures Node(z - 1, None, d.shadow.value) in ns {
      ShadowsShown(reg, z, ds, d);
    }
  }

  /** The covers and the lock drawin are drawn, and the lock client's surface over the whole output. */
  ghost predicate ShowsLock(reg: Registry, ns: seq<Node>, w: nat, h: nat, i: Input) {
    && ShowsDrawins(reg, ns, Z_LOCK_COVER, i.covers) && ShowsDrawins(reg, ns, Z_LOCK_SURFACE, Wanted(i.surface))
    && (i.lockSurface.Some? ==> ShownAs(reg, ns, Z_LOCK_SURFACE, i.lockSurface.value, Box(0, 0, w, h)))
  }

  lemma LeafShown(reg: Registry, obj: nat, kind: nat, z: int, box: Box)
    requires Valid(reg) && reg.next < ID_WRAP - 1
    ensures var (r, ns) := DeclareLeaf(reg, obj, kind, z, box); ShownAs(r, ns, z, obj, box)
  {
    var e := ForNames(reg, obj, kind);
    var (r, ns) := DeclareLeaf(reg, obj, kind, z, box);
    assert ns[0] in ns && Names(r, ns[0].owner.value, obj);
  }

  /** The nodes of a section, part by part. */
  lemma SectionParts(reg: Registry, decl: nat, w: nat, h: nat, i: Input)
    ensures var (r0, r1, r2, r3) := SectionPath(reg, decl, i); var (r, ns) := LockSection(reg, decl, w, h, i);
            && r == r3
            && (forall n | n in DeclareDrawins(r0, Z_LOCK_COVER, i.covers).1 :: n in ns)
            && (forall n | n in DeclareDrawins(r1, Z_LOCK_SURFACE, Wanted(i.surface)).1 :: n in ns)
            && (i.lockSurface.Some? ==>
                  forall n | n in DeclareLeaf(r2, i.lockSurface.value, KIND_LOCK, Z_LOCK_SURFACE, Box(0, 0, w, h)).1 ::
                    n in ns)
  {
  }

  lemma SectionShowsTheLock(reg: Registry, decl: nat, w: nat, h: nat, i: Input)
    requires Valid(reg) && reg.next + Needs(i) < ID_WRAP
    ensures ShowsLock(LockSection(reg, decl, w, h, i).0, LockSection(reg, decl, w, h, i).1, w, h, i)
  {
    var (r0, r1, r2, r3) := SectionPath(reg, decl, i);
    var ns := LockSection(reg, decl, w, h, i).1;
    SectionPathOk(reg, decl, i);
    SectionParts(reg, decl, w, h, i);
    ExtendsChain(r1, r2, r3);
    DeclaredDrawinsShow(r0, Z_LOCK_COVER, i.covers);
    ShowsDrawinsLater(r1, r3, DeclareDrawins(r0, Z_LOCK_COVER, i.covers).1, ns, Z_LOCK_COVER, i.covers);
    var wanted := Wanted(i.surface);
    DeclaredDrawinsShow(r1, Z_LOCK_SURFACE, wanted);
    ShowsDrawinsLater(r2, r3, DeclareDrawins(r1, Z_LOCK_SURFACE, wanted).1, ns, Z_LOCK_SURFACE, wanted);
    if i.lockSurface.Some? {
      var box := Box(0, 0, w, h);
      LeafShown(r2, i.lockSurface.value, KIND_LOCK, Z_LOCK_SURFACE, box);
      var leaf := DeclareLeaf(r2, i.lockSurface.value, KIND_LOCK, Z_LOCK_SURFACE, box).1;
      ShownLater(r3, r3, leaf, ns, Z_LOCK_SURFACE, i.lockSurface.value, box);
    }
  }

  lemma LockedSceneShowsTheLock(reg: Registry, decl: nat, w: nat, h: nat, i: Input)
    requires Valid(reg) && reg.next + Needs(i) < ID_WRAP && Typed(reg, decl, KIND_LOCK_BLOCK)
    ensures ShowsLock(Scene(reg, decl, w, h, true, i).0, Scene(reg, decl, w, h, true, i).1, w, h, i)
  {
    var (r, section) := LockSection(reg, decl, w, h, i);
    SectionShowsTheLock(reg, decl, w, h, i);
    SectionOk(reg, decl, w, h, i);
    var (later, ns) := Scene(reg, decl, w, h, true, i);
    if i.cursor.Some? { ForConfines(r, i.cursor.value.0, KIND_CURSOR); }
    ShowsLockLater(r, later, section, ns, w, h, i);
  }

  /** A frame under a lock shows all of the lock, and its handles resolve to the lock's objects. */
  lemma LockedFrameShowsTheLock(s: State, out: nat, input: Input, order: seq<Node>)
    requires Ok(s) && SessionLocked(s) && Possible(s, Frame(out, input, order))
    ensures var t := After(s, Frame(out, input, order));
            && ShowsLocked(t, out) && t.outputs[out].shown.order == order
            && ShowsLock(t.reg, order, s.outputs[out].w, s.outputs[out].h, input)
  {
    var o := s.outputs[out];
    LockedSceneShowsTheLock(s.reg, o.decl, o.w, o.h, input);
    var (r, ns) := Scene(s.reg, o.decl, o.w, o.h, true, input);
    SameNodes(ns, order);
    ShowsLockLater(r, r, ns, order, o.w, o.h, input);
  }

  lemma ShowsLockLater(reg: Registry, later: Registry, ns: seq<Node>, more: seq<Node>, w: nat, h: nat, i: Input)
    requires ShowsLock(reg, ns, w, h, i) && Extends(reg, later) && forall n | n in ns :: n in more
    ensures ShowsLock(later, more, w, h, i)
  {
    ShowsDrawinsLater(reg, later, ns, more, Z_LOCK_COVER, i.covers);
    ShowsDrawinsLater(reg, later, ns, more, Z_LOCK_SURFACE, Wanted(i.surface));
    if i.lockSurface.Some? {
      ShownLater(reg, later, ns, more, Z_LOCK_SURFACE, i.lockSurface.value, Box(0, 0, w, h));
    }
  }
}

/**
 What the pointer is over, and the enter, leave and move signals it causes.
 Two slots are tracked: the client or drawin under the pointer, and the
 drawable (a titlebar's or a drawin's) under it, which is held by a reference.
 */
module Hover {
  import opened Options
  import opened EventLog
  import Q = EventQueue

  // Clients, drawins and drawables are different Lua objects.
  datatype ObjectKind = ClientKind | DrawinKind | DrawableKind

  /** The number of the n-th object of a kind: every third number is a client's, a
      drawin's, a drawable's. */
  function Numbered(k: ObjectKind, n: nat): (o: nat)
    ensures KindOf(o) == k && IndexOf(o) == n
  {
    if n > 0 then Numbered(k, n - 1) + 3
    else match k
      case ClientKind => 0
      case DrawinKind => 1
      case DrawableKind => 2
  }

  function KindOf(o: nat): ObjectKind {
    if o == 0 then ClientKind else if o == 1 then DrawinKind else if o == 2 then DrawableKind else KindOf(o - 3)
  }

  function IndexOf(o: nat): nat {
    if o < 3 then 0 else 1 + IndexOf(o - 3)
  }

  function ClientObject(c: nat): nat { Numbered(ClientKind, c) }
  function DrawinObject(d: nat): nat { Numbered(DrawinKind, d) }
  function DrawableObject(d: nat): nat { Numbered(DrawableKind, d) }

  datatype Under = UnderNone | UnderClient(client: nat) | UnderDrawin(drawin: nat)

  /** The titlebar part of a hit, with the point in the titlebar's own coordinates; the item
      may have no Lua value any more. */
  datatype Titlebar = NoTitlebar | Titlebar(drawable: nat, pushable: bool, x: int, y: int)

  datatype Hit = HitNothing | HitClient(client: nat, titlebar: Titlebar) | HitDrawin(drawin: nat, drawable: nat)

  /** The references held on drawables; badUnrefs counts the releases of one that
      was not held, which luaA_object_decref reports as a bug. */
  datatype Holds = Holds(refs: multiset<nat>, badUnrefs: nat)

  function Ref(h: Holds, d: nat): Holds {
    h.(refs := h.refs + multiset{d})
  }

  function Unref(h: Holds, d: nat): Holds {
    if d in h.refs then h.(refs := h.refs - multiset{d}) else h.(badUnrefs := h.badUnrefs + 1)
  }

  /** Every producer call made, the last one outermost. */
  datatype Log = NoCalls | Then(before: Log, last: Op)

  function Ops(log: Log): seq<Op> {
    match log
    case NoCalls => []
    case Then(before, last) => Ops(before) + [last]
  }

  datatype State = State(under: Under, drawable: Option<nat>, ignoreNext: bool, holds: Holds, log: Log)

  const Initial := State(UnderNone, None, false, Holds(multiset{}, 0), NoCalls)

  function Enter(o: nat): Op { Emit(Msg(ObjectEvent, SIG_MOUSE_ENTER, o, [], 0)) }
  function Leave(o: nat): Op { Emit(Msg(ObjectEvent, SIG_MOUSE_LEAVE, o, [], 0)) }

  const SIG_LIST := 16
  const CLIENT_CLASS := 1
  const ListChanged := Emit(Msg(ClassEvent, SIG_LIST, NO_OBJECT, [], CLIENT_CLASS))

  function UnderObject(u: Under): Option<nat> {
    match u
    case UnderNone => None
    case UnderClient(c) => Some(ClientObject(c))
    case UnderDrawin(d) => Some(DrawinObject(d))
  }

  // --- the steps, as functions ---

  function LeaveDrawable(s: State): State {
    match s.drawable
    case None => s
    case Some(d) => s.(drawable := None, holds := Unref(s.holds, d),
                       log := Then(s.log, Leave(DrawableObject(d))))
  }

  /** mouse_emit_leave */
  function LeaveAll(s: State): State {
    var o := UnderObject(s.under);
    LeaveDrawable(s.(under := UnderNone, log := if o.Some? then Then(s.log, Leave(o.value)) else s.log))
  }

  /** event_drawable_under_mouse: the new drawable is referenced before the old one
      is given up, and given back at once when nothing changes. */
  function SetDrawable(s: State, d: Option<nat>): State {
    var r := if d.Some? then s.(holds := Ref(s.holds, d.value)) else s;
    if d == s.drawable then
      (if d.Some? then r.(holds := Unref(r.holds, d.value)) else r)
    else
      var t := LeaveDrawable(r);
      if d.Some? then t.(drawable := d, log := Then(t.log, Enter(DrawableObject(d.value)))) else t
  }

  function EnterUnder(t: State, u: Under): State
    requires u != UnderNone
  {
    t.(under := u, log := Then(t.log, Enter(UnderObject(u).value)))
  }

  function EnterObject(s: State, u: Under): State {
    if s.under == u || u == UnderNone then s else EnterUnder(LeaveAll(s), u)
  }

  function QueueMove(s: State, o: nat, x: int, y: int): State {
    s.(log := Then(s.log, Move(o, x, y)))
  }

  /** The titlebar's part of a client hit; one that cannot be pushed is left alone. */
  function TrackTitlebar(t: State, bar: Titlebar): State {
    match bar
    case NoTitlebar => SetDrawable(t, None)
    case Titlebar(d, pushable, x, y) =>
      if pushable then QueueMove(SetDrawable(t, Some(d)), DrawableObject(d), x, y) else t
  }

  /** The tracking part of motionnotify for one hit. */
  function Track(s: State, hit: Hit, x: int, y: int): State {
    match hit
    case HitNothing => if s.under != UnderNone then LeaveAll(s) else s
    case HitClient(c, bar) =>
      TrackTitlebar(QueueMove(EnterObject(s, UnderClient(c)), ClientObject(c), x, y), bar)
    case HitDrawin(w, d) =>
      QueueMove(SetDrawable(EnterObject(s, UnderDrawin(w)), Some(d)), DrawableObject(d), x, y)
  }

  /** A pointer step: motion, a request to ignore the next crossing, a drain is
      none of its business, or a client going away with its titlebars. */
  datatype Step =
    | Motion(timed: bool, consumed: bool, hit: Hit, x: int, y: int)
    | IgnoreNext
    | Unmanage(client: nat, titlebars: seq<nat>)

  function LeaveTitlebars(s: State, bars: seq<nat>): State {
    if bars == [] then s
    else
      var t := LeaveTitlebars(s, bars[..|bars| - 1]);
      if t.drawable == Some(bars[|bars| - 1]) then SetDrawable(t, None) else t
  }

  function LeaveClient(s: State, c: nat): State {
    if s.under == UnderClient(c) then s.(under := UnderNone, log := Then(s.log, Leave(ClientObject(c)))) else s
  }

  /** The class event that says the list of clients has changed. */
  function Announce(s: State): State {
    s.(log := Then(s.log, ListChanged))
  }

  function Take(s: State, step: Step): State {
    match step
    case Motion(timed, consumed, hit, x, y) =>
      if consumed then s
      else (if timed && !s.ignoreNext then Track(s, hit, x, y) else s).(ignoreNext := false)
    case IgnoreNext => s.(ignoreNext := true)
    case Unmanage(c, bars) => LeaveTitlebars(Announce(LeaveClient(s, c)), bars)
  }

  function Run(steps: seq<Step>): State {
    if steps == [] then Initial else Take(Run(steps[..|steps| - 1]), steps[|steps| - 1])
  }

  // --- what every run keeps ---

  predicate IsEnter(op: Op, o: nat) { op == Enter(o) }
  predicate IsLeave(op: Op, o: nat) { op == Leave(o) }

  /** The last crossing of o in the log is an enter. */
  predicate Inside(log: seq<Op>, o: nat) {
    log != [] && (var n := |log| - 1;
                  IsEnter(log[n], o) || (!IsLeave(log[n], o) && Inside(log[..n], o)))
  }

  /** What op needs of the log before it. */
  predicate InOrder(before: seq<Op>, op: Op) {
    match op
    case Move(o, _, _) => Inside(before, o)
    case Emit(m) =>
      && (m.signal == SIG_MOUSE_ENTER && m.obj >= 0 ==> !Inside(before, m.obj))
      && (m.signal == SIG_MOUSE_LEAVE && m.obj >= 0 ==> Inside(before, m.obj))
  }

  /** Enter and leave alternate on every object, and moves lie between them. */
  predicate Ordered(log: seq<Op>) {
    log != [] ==> Ordered(log[..|log| - 1]) && InOrder(log[..|log| - 1], log[|log| - 1])
  }

  /** A call of another producer: neither a crossing nor a move. */
  predicate Foreign(op: Op) {
    op.Emit? && op.msg.signal !in {SIG_MOUSE_ENTER, SIG_MOUSE_LEAVE, SIG_MOUSE_MOVE}
  }

  /** Crossings are queued on objects only, as Enter and Leave build them. */
  predicate Crossing(op: Op) {
    op.Emit? && op.msg.obj >= 0 && (op == Enter(op.msg.obj) || op == Leave(op.msg.obj))
  }

  predicate HoverOp(op: Op) { op.Move? || Crossing(op) || Foreign(op) }

  predicate HoverLog(log: seq<Op>) {
    forall i | 0 <= i < |log| :: HoverOp(log[i])
  }

  /** The objects whose enter was queued last. */
  function Slots(s: State): set<nat> {
    (if s.under != UnderNone then {UnderObject(s.under).value} else {})
    + (if s.drawable.Some? then {DrawableObject(s.drawable.value)} else {})
  }

  ghost predicate LogFor(log: seq<Op>, slots: set<nat>) {
    && Ordered(log) && WellFormedLog(log) && HoverLog(log)
    && forall o: nat :: Inside(log, o) <==> o in slots
  }

  /** A call that fits what is entered: moves inside, an enter outside, a leave inside. */
  predicate Fits(slots: set<nat>, op: Op) {
    && WellFormed(op) && HoverOp(op)
    && match op
       case Move(o, _, _) => o in slots
       case Emit(m) => Crossing(op) ==> (op == Enter(m.obj) <==> m.obj !in slots)
  }

  function SlotsAfter(slots: set<nat>, op: Op): set<nat> {
    if !Crossing(op) then slots
    else if op == Enter(op.msg.obj) then slots + {op.msg.obj as nat}
    else slots - {op.msg.obj as nat}
  }

  /** What a log leaves entered, none when one of its calls did not fit. */
  function Entered(log: Log): Option<set<nat>> {
    match log
    case NoCalls => Some({})
    case Then(before, op) =>
      var slots := Entered(before);
      if slots.None? || !Fits(slots.value, op) then None else Some(SlotsAfter(slots.value, op))
  }

  /** The one reference a tracked state holds. */
  function HoldsFor(drawable: Option<nat>): Holds {
    Holds(if drawable.Some? then multiset{drawable.value} else multiset{}, 0)
  }

  ghost predicate Tracked(s: State) {
    && Entered(s.log) == Some(Slots(s))
    && s.holds == HoldsFor(s.drawable)
  }

  lemma {:induction false} Logged(log: seq<Op>, op: Op)
    ensures Ordered(log + [op]) <==> Ordered(log) && InOrder(log, op)
    ensures forall o: nat :: Inside(log + [op], o) == (IsEnter(op, o) || (!IsLeave(op, o) && Inside(log, o)))
  {
    assert (log + [op])[..|log|] == log;
  }

  lemma LogGrows(log: seq<Op>, slots: set<nat>, op: Op, slots': set<nat>)
    requires LogFor(log, slots) && InOrder(log, op) && WellFormed(op) && HoverOp(op)
    requires forall o: nat :: o in slots' <==> IsEnter(op, o) || (!IsLeave(op, o) && o in slots)
    ensures LogFor(log + [op], slots')
  {
    Logged(log, op);
    forall o: nat ensures Inside(log + [op], o) <==> o in slots' {
      assert Inside(log, o) <==> o in slots;
    }
  }

  /** A log whose calls all fit is in order, and what it leaves entered are its slots. */
  lemma {:induction false} EnteredLog(log: Log)
    requires Entered(log).Some?
    ensures LogFor(Ops(log), Entered(log).value)
  {
    if log.Then? {
      EnteredLog(log.before);
      var slots, op := Entered(log.before).value, log.last;
      assert op.Emit? && !Crossing(op) ==> Foreign(op);
      LogGrows(Ops(log.before), slots, op, SlotsAfter(slots, op));
    }
  }

  lemma LeaveLogged(log: Log, slots: set<nat>, o: nat)
    requires Entered(log) == Some(slots) && o in slots
    ensures Entered(Then(log, Leave(o))) == Some(slots - {o})
  {
  }

  lemma EnterLogged(log: Log, slots: set<nat>, o: nat)
    requires Entered(log) == Some(slots) && o !in slots
    ensures Entered(Then(log, Enter(o))) == Some(slots + {o})
  {
  }

  lemma AnnounceTracked(s: State)
    requires Tracked(s)
    ensures Tracked(Announce(s)) && Announce(s).under == s.under && Announce(s).drawable == s.drawable
  {
    assert Slots(Announce(s)) == Slots(s);
  }

  lemma LeaveDrawableTracked(s: State)
    requires Tracked(s)
    ensures Tracked(LeaveDrawable(s)) && LeaveDrawable(s).under == s.under && LeaveDrawable(s).drawable == None
  {
    if s.drawable.Some? {
      LeaveLogged(s.log, Slots(s), DrawableObject(s.drawable.value));
      assert multiset{s.drawable.value} - multiset{s.drawable.value} == multiset{};
      assert Slots(LeaveDrawable(s)) == Slots(s) - {DrawableObject(s.drawable.value)};
    }
  }

  lemma LeaveUnderTracked(s: State)
    requires Tracked(s) && s.under != UnderNone
    ensures Tracked(s.(under := UnderNone, log := Then(s.log, Leave(UnderObject(s.under).value))))
  {
    var o := UnderObject(s.under).value;
    LeaveLogged(s.log, Slots(s), o);
    assert Slots(s.(under := UnderNone)) == Slots(s) - {o};
  }

  lemma LeaveAllTracked(s: State)
    requires Tracked(s)
    ensures Tracked(LeaveAll(s)) && LeaveAll(s).under == UnderNone && LeaveAll(s).drawable == None
  {
    if s.under != UnderNone {
      LeaveUnderTracked(s);
      LeaveDrawableTracked(s.(under := UnderNone, log := Then(s.log, Leave(UnderObject(s.under).value))));
    } else {
      assert s.(under := UnderNone, log := s.log) == s;
      LeaveDrawableTracked(s);
    }
  }

  lemma EnterUnderTracked(t: State, u: Under)
    requires Tracked(t) && t.under == UnderNone && t.drawable == None && u != UnderNone
    ensures Tracked(EnterUnder(t, u)) && EnterUnder(t, u).under == u
  {
    assert Slots(t) == {};
    EnterLogged(t.log, {}, UnderObject(u).value);
    assert Slots(EnterUnder(t, u)) == {} + {UnderObject(u).value};
  }

  lemma EnterObjectTracked(s: State, u: Under)
    requires Tracked(s) && u != UnderNone
    ensures Tracked(EnterObject(s, u)) && EnterObject(s, u).under == u
  {
    if s.under != u {
      LeaveAllTracked(s);
      EnterUnderTracked(LeaveAll(s), u);
    }
  }

  lemma SetDrawableTracked(s: State, d: Option<nat>)
    requires Tracked(s)
    ensures Tracked(SetDrawable(s, d)) && SetDrawable(s, d).under == s.under && SetDrawable(s, d).drawable == d
  {
    if d.None? {
      LeaveDrawableTracked(s);
    } else if d == s.drawable {
      var m := multiset{d.value};
      assert s.holds.refs + m - m == s.holds.refs;
      assert SetDrawable(s, d) == s;
    } else {
      SwitchDrawableTracked(s, d.value);
    }
  }

  function EnterDrawable(t: State, d: nat): State {
    t.(drawable := Some(d), holds := HoldsFor(Some(d)), log := Then(t.log, Enter(DrawableObject(d))))
  }

  /** The reference moves with the drawable: the new one is taken before the old is given up. */
  lemma SwitchIsLeaveAndEnter(s: State, d: nat)
    requires s.holds == HoldsFor(s.drawable) && s.drawable != Some(d)
    ensures SetDrawable(s, Some(d)) == EnterDrawable(LeaveDrawable(s), d)
  {
    if s.drawable.Some? {
      var x := s.drawable.value;
      assert multiset{x} + multiset{d} - multiset{x} == multiset{d};
    } else {
      assert multiset{} + multiset{d} == multiset{d};
    }
  }

  lemma EnterDrawableTracked(t: State, d: nat)
    requires Tracked(t) && t.drawable == None
    ensures Tracked(EnterDrawable(t, d))
  {
    var slots := Slots(t);
    assert DrawableObject(d) !in slots;
    EnterLogged(t.log, slots, DrawableObject(d));
    assert Slots(EnterDrawable(t, d)) == slots + {DrawableObject(d)};
  }

  lemma SwitchDrawableTracked(s: State, d: nat)
    requires Tracked(s) && s.drawable != Some(d)
    ensures Tracked(SetDrawable(s, Some(d))) && SetDrawable(s, Some(d)).under == s.under
  {
    LeaveDrawableTracked(s);
    SwitchIsLeaveAndEnter(s, d);
    EnterDrawableTracked(LeaveDrawable(s), d);
  }

  lemma MoveTracked(s: State, o: nat, x: int, y: int)
    requires Tracked(s) && o in Slots(s)
    ensures Tracked(QueueMove(s, o, x, y))
  {
    assert Slots(QueueMove(s, o, x, y)) == Slots(s);
  }

  lemma UnderIsSlot(s: State)
    ensures s.under != UnderNone ==> UnderObject(s.under).value in Slots(s)
    ensures s.drawable.Some? ==> DrawableObject(s.drawable.value) in Slots(s)
  {
  }

  /** The drawable's part of a hit: it becomes the tracked one and gets the move. */
  lemma DrawableHitTracked(s: State, d: nat, x: int, y: int)
    requires Tracked(s)
    ensures Tracked(QueueMove(SetDrawable(s, Some(d)), DrawableObject(d), x, y))
  {
    var u := SetDrawable(s, Some(d));
    SetDrawableTracked(s, Some(d));
    UnderIsSlot(u);
    MoveTracked(u, DrawableObject(d), x, y);
  }

  lemma ClientHitTracked(s: State, c: nat, x: int, y: int)
    requires Tracked(s)
    ensures Tracked(QueueMove(EnterObject(s, UnderClient(c)), ClientObject(c), x, y))
  {
    var e := EnterObject(s, UnderClient(c));
    EnterObjectTracked(s, UnderClient(c));
    UnderIsSlot(e);
    MoveTracked(e, ClientObject(c), x, y);
  }

  lemma TitlebarTracked(t: State, bar: Titlebar)
    requires Tracked(t)
    ensures Tracked(TrackTitlebar(t, bar))
  {
    match bar
    case NoTitlebar => SetDrawableTracked(t, None);
    case Titlebar(d, pushable, x, y) => if pushable { DrawableHitTracked(t, d, x, y); }
  }

  lemma EnteredClientTracked(s: State, c: nat, bar: Titlebar, x: int, y: int)
    requires Tracked(s)
    ensures Tracked(TrackTitlebar(QueueMove(EnterObject(s, UnderClient(c)), ClientObject(c), x, y), bar))
  {
    ClientHitTracked(s, c, x, y);
    TitlebarTracked(QueueMove(EnterObject(s, UnderClient(c)), ClientObject(c), x, y), bar);
  }

  lemma EnteredDrawinTracked(s: State, w: nat, d: nat, x: int, y: int)
    requires Tracked(s)
    ensures Tracked(QueueMove(SetDrawable(EnterObject(s, UnderDrawin(w)), Some(d)), DrawableObject(d), x, y))
  {
    EnterObjectTracked(s, UnderDrawin(w));
    DrawableHitTracked(EnterObject(s, UnderDrawin(w)), d, x, y);
  }

  lemma TrackTracked(s: State, hit: Hit, x: int, y: int)
    requires Tracked(s)
    ensures Tracked(Track(s, hit, x, y))
  {
    match hit
    case HitNothing => LeaveAllTracked(s);
    case HitClient(c, bar) => EnteredClientTracked(s, c, bar, x, y);
    case HitDrawin(w, d) => EnteredDrawinTracked(s, w, d, x, y);
  }

  lemma {:induction false} LeaveTitlebarsTracked(s: State, bars: seq<nat>)
    requires Tracked(s)
    ensures Tracked(LeaveTitlebars(s, bars))
    ensures LeaveTitlebars(s, bars).drawable.Some? ==> LeaveTitlebars(s, bars).drawable.value !in bars
    decreases |bars|
  {
    if bars != [] {
      LeaveTitlebarsTracked(s, bars[..|bars| - 1]);
      SetDrawableTracked(LeaveTitlebars(s, bars[..|bars| - 1]), None);
      assert forall b | b in bars :: b in bars[..|bars| - 1] || b == bars[|bars| - 1];
    }
  }

  lemma StepTracked(s: State, step: Step)
    requires Tracked(s)
    ensures Tracked(Take(s, step))
  {
    match step
    case Motion(timed, consumed, hit, x, y) =>
      TrackTracked(s, hit, x, y);
      var t := if timed && !s.ignoreNext then Track(s, hit, x, y) else s;
      assert Slots(t.(ignoreNext := false)) == Slots(t);
    case IgnoreNext =>
      assert Slots(s.(ignoreNext := true)) == Slots(s);
    case Unmanage(c, bars) =>
      if s.under == UnderClient(c) { LeaveUnderTracked(s); }
      AnnounceTracked(LeaveClient(s, c));
      LeaveTitlebarsTracked(Announce(LeaveClient(s, c)), bars);
  }

  /** Over every run of pointer steps: enter and leave alternate in each slot, moves
      lie inside, the slots are what was last entered, and exactly the drawable
      under the pointer is held, once. */
  lemma {:induction false} RunsAreTracked(steps: seq<Step>)
    ensures Tracked(Run(steps)) && LogFor(Ops(Run(steps).log), Slots(Run(steps)))
    decreases |steps|
  {
    if steps != [] {
      RunsAreTracked(steps[..|steps| - 1]);
      StepTracked(Run(steps[..|steps| - 1]), steps[|steps| - 1]);
    }
    assert Slots(Initial) == {};
    EnteredLog(Run(steps).log);
  }

  // --- what a step leaves tracked, and what it calls ---

  function CrossingsOf(log: Log): seq<Op> {
    match log
    case NoCalls => []
    case Then(before, op) => CrossingsOf(before) + if Crossing(op) then [op] else []
  }

  function MovesOf(log: Log): seq<Op> {
    match log
    case NoCalls => []
    case Then(before, op) => MovesOf(before) + if op.Move? then [op] else []
  }

  /** From one state to the other these crossings are queued and these moves. */
  predicate Queues(s: State, t: State, crossings: seq<Op>, moves: seq<Op>) {
    CrossingsOf(t.log) == CrossingsOf(s.log) + crossings && MovesOf(t.log) == MovesOf(s.log) + moves
  }

  lemma QueuesChain(s: State, t: State, u: State, c0: seq<Op>, m0: seq<Op>, c1: seq<Op>, m1: seq<Op>)
    requires Queues(s, t, c0, m0) && Queues(t, u, c1, m1)
    ensures Queues(s, u, c0 + c1, m0 + m1)
  {
  }

  function Left(u: Under, d: Option<nat>): seq<Op> {
    (if u == UnderNone then [] else [Leave(UnderObject(u).value)])
    + (if d.None? then [] else [Leave(DrawableObject(d.value))])
  }

  function Come(u: Under, d: Option<nat>): seq<Op> {
    (if u == UnderNone then [] else [Enter(UnderObject(u).value)])
    + (if d.None? then [] else [Enter(DrawableObject(d.value))])
  }

  /** The crossings between two states, by their slots alone: with the same object under the
      pointer the drawable's, else everything is left before anything is entered. */
  function Crossings(s: State, t: State): seq<Op> {
    if s.under != t.under then Left(s.under, s.drawable) + Come(t.under, t.drawable)
    else if s.drawable != t.drawable then Left(UnderNone, s.drawable) + Come(UnderNone, t.drawable)
    else []
  }

  /** What is under the pointer after a hit; a titlebar that cannot be pushed changes no drawable. */
  predicate HitSlots(s: State, hit: Hit, t: State) {
    match hit
    case HitNothing => t.under == UnderNone && t.drawable == if s.under == UnderNone then s.drawable else None
    case HitClient(c, bar) =>
      && t.under == UnderClient(c)
      && (match bar
          case NoTitlebar => t.drawable == None
          case Titlebar(d, pushable, _, _) =>
            t.drawable == if pushable then Some(d) else if s.under == UnderClient(c) then s.drawable else None)
    case HitDrawin(w, d) => t.under == UnderDrawin(w) && t.drawable == Some(d)
  }

  function HitMoves(hit: Hit, x: int, y: int): seq<Op> {
    match hit
    case HitNothing => []
    case HitClient(c, NoTitlebar) => [Move(ClientObject(c), x, y)]
    case HitClient(c, Titlebar(d, pushable, left, top)) =>
      [Move(ClientObject(c), x, y)] + if pushable then [Move(DrawableObject(d), left, top)] else []
    case HitDrawin(_, d) => [Move(DrawableObject(d), x, y)]
  }

  lemma LeaveDrawableQueues(s: State)
    ensures var t := LeaveDrawable(s);
            Queues(s, t, Left(UnderNone, s.drawable), []) && t.under == s.under && t.drawable == None
  {
  }

  lemma LeaveAllQueues(s: State)
    ensures var t := LeaveAll(s);
            Queues(s, t, Left(s.under, s.drawable), []) && t.under == UnderNone && t.drawable == None
  {
    var o := UnderObject(s.under);
    var m := s.(under := UnderNone, log := if o.Some? then Then(s.log, Leave(o.value)) else s.log);
    LeaveDrawableQueues(m);
    assert Queues(s, m, Left(s.under, None), []);
    QueuesChain(s, m, LeaveAll(s), Left(s.under, None), [], Left(UnderNone, s.drawable), []);
  }

  lemma EnterObjectQueues(s: State, u: Under)
    requires u != UnderNone
    ensures var t := EnterObject(s, u);
            && t.under == u && t.drawable == (if s.under == u then s.drawable else None)
            && Queues(s, t, Crossings(s, t), [])
  {
    if s.under != u {
      var m := LeaveAll(s);
      LeaveAllQueues(s);
      var t := EnterUnder(m, u);
      assert Queues(m, t, Come(u, None), []);
      QueuesChain(s, m, t, Left(s.under, s.drawable), [], Come(u, None), []);
    }
  }

  lemma SetDrawableQueues(s: State, d: Option<nat>)
    ensures var t := SetDrawable(s, d);
            t.under == s.under && t.drawable == d && Queues(s, t, Crossings(s, t), [])
  {
    if d != s.drawable {
      var r := if d.Some? then s.(holds := Ref(s.holds, d.value)) else s;
      var m := LeaveDrawable(r);
      LeaveDrawableQueues(r);
      assert Queues(s, m, Left(UnderNone, s.drawable), []);
      assert Queues(m, SetDrawable(s, d), Come(UnderNone, d), []);
      QueuesChain(s, m, SetDrawable(s, d), Left(UnderNone, s.drawable), [], Come(UnderNone, d), []);
    }
  }

  lemma MoveQueues(s: State, o: nat, x: int, y: int)
    ensures Queues(s, QueueMove(s, o, x, y), [], [Move(o, x, y)])
  {
  }

  /** Entering an object and then setting the drawable crosses what lies between the ends. */
  lemma CrossingsChain(s: State, t: State, u: State)
    requires t.under == u.under && t.drawable == (if s.under == t.under then s.drawable else None)
    requires t.drawable == u.drawable || s.under == t.under || u.drawable.Some?
    ensures Crossings(s, t) + Crossings(t, u) == Crossings(s, u)
  {
  }

  lemma ClientHitQueues(s: State, c: nat, x: int, y: int)
    ensures var t := QueueMove(EnterObject(s, UnderClient(c)), ClientObject(c), x, y);
            && t.under == UnderClient(c) && t.drawable == (if s.under == t.under then s.drawable else None)
            && Queues(s, t, Crossings(s, t), [Move(ClientObject(c), x, y)])
  {
    var e := EnterObject(s, UnderClient(c));
    EnterObjectQueues(s, UnderClient(c));
    MoveQueues(e, ClientObject(c), x, y);
    QueuesChain(s, e, QueueMove(e, ClientObject(c), x, y), Crossings(s, e), [], [], [Move(ClientObject(c), x, y)]);
  }

  lemma DrawableHitQueues(s: State, d: nat, x: int, y: int)
    ensures var t := QueueMove(SetDrawable(s, Some(d)), DrawableObject(d), x, y);
            && t.under == s.under && t.drawable == Some(d)
            && Queues(s, t, Crossings(s, t), [Move(DrawableObject(d), x, y)])
  {
    var m := SetDrawable(s, Some(d));
    SetDrawableQueues(s, Some(d));
    MoveQueues(m, DrawableObject(d), x, y);
    QueuesChain(s, m, QueueMove(m, DrawableObject(d), x, y), Crossings(s, m), [], [], [Move(DrawableObject(d), x, y)]);
  }

  lemma TitlebarQueues(t: State, bar: Titlebar)
    ensures var u := TrackTitlebar(t, bar);
            && u.under == t.under
            && u.drawable == (if bar.NoTitlebar? then None else if bar.pushable then Some(bar.drawable) else t.drawable)
            && Queues(t, u, Crossings(t, u), if bar.Titlebar? && bar.pushable
                                            then [Move(DrawableObject(bar.drawable), bar.x, bar.y)] else [])
  {
    match bar
    case NoTitlebar => SetDrawableQueues(t, None);
    case Titlebar(d, pushable, x, y) => if pushable { DrawableHitQueues(t, d, x, y); }
  }

  lemma TrackQueues(s: State, hit: Hit, x: int, y: int)
    ensures var t := Track(s, hit, x, y); HitSlots(s, hit, t) && Queues(s, t, Crossings(s, t), HitMoves(hit, x, y))
  {
    var t := Track(s, hit, x, y);
    match hit
    case HitNothing => LeaveAllQueues(s);
    case HitClient(c, bar) =>
      var m := QueueMove(EnterObject(s, UnderClient(c)), ClientObject(c), x, y);
      ClientHitQueues(s, c, x, y);
      TitlebarQueues(m, bar);
      CrossingsChain(s, m, t);
      QueuesChain(s, m, t, Crossings(s, m), [Move(ClientObject(c), x, y)], Crossings(m, t),
                  if bar.Titlebar? && bar.pushable then [Move(DrawableObject(bar.drawable), bar.x, bar.y)] else []);
    case HitDrawin(w, d) =>
      var m := EnterObject(s, UnderDrawin(w));
      EnterObjectQueues(s, UnderDrawin(w));
      DrawableHitQueues(m, d, x, y);
      CrossingsChain(s, m, t);
      QueuesChain(s, m, t, Crossings(s, m), [], Crossings(m, t), [Move(DrawableObject(d), x, y)]);
  }

  /** A timed motion that nothing grabs leaves tracked exactly what it hits, queues the moves
      of the hit objects, and crosses only what changes; a crossing to ignore, a motion
      without a time and a grab change nothing that is tracked. */
  lemma MotionTracksTheHit(s: State, timed: bool, consumed: bool, hit: Hit, x: int, y: int)
    ensures var t := Take(s, Motion(timed, consumed, hit, x, y));
            && t.ignoreNext == (consumed && s.ignoreNext)
            && (timed && !consumed && !s.ignoreNext ==>
                  HitSlots(s, hit, t) && Queues(s, t, Crossings(s, t), HitMoves(hit, x, y)))
            && (!timed || consumed || s.ignoreNext ==> t == s.(ignoreNext := t.ignoreNext))
  {
    TrackQueues(s, hit, x, y);
  }

  /** After a request to ignore the next crossing, the motion that brings it changes nothing
      but the request, which a grabbed motion before it does not use up. */
  lemma NextCrossingIsIgnored(s: State, grabbed: Hit, hit: Hit, x: int, y: int)
    ensures var t := Take(Take(s, IgnoreNext), Motion(true, true, grabbed, x, y));
            Take(t, Motion(true, false, hit, x, y)) == s.(ignoreNext := false)
  {
  }

  /** A client that goes is tracked no more, nor are its titlebars; every other slot is kept. */
  lemma UnmanageForgets(s: State, c: nat, bars: seq<nat>)
    ensures var t := Take(s, Unmanage(c, bars));
            && t.under == (if s.under == UnderClient(c) then UnderNone else s.under)
            && t.drawable == (if s.drawable.Some? && s.drawable.value in bars then None else s.drawable)
            && t.ignoreNext == s.ignoreNext
            && Ops(t.log) == Ops(s.log)
                             + (if t.under != s.under then [Leave(ClientObject(c))] else []) + [ListChanged]
                             + (if t.drawable != s.drawable then Left(UnderNone, s.drawable) else [])
  {
    var m := Announce(LeaveClient(s, c));
    LeaveTitlebarsExact(m, bars);
    var gone := if s.under == UnderClient(c) then [Leave(ClientObject(c))] else [];
    assert Ops(m.log) == Ops(s.log) + gone + [ListChanged];
    if s.drawable.Some? {
      assert Left(UnderNone, s.drawable) == [Leave(DrawableObject(s.drawable.value))];
    }
  }

  lemma {:induction false} LeaveTitlebarsExact(s: State, bars: seq<nat>)
    ensures LeaveTitlebars(s, bars) == if s.drawable.Some? && s.drawable.value in bars then LeaveDrawable(s) else s
    decreases |bars|
  {
    if bars != [] {
      var init := bars[..|bars| - 1];
      LeaveTitlebarsExact(s, init);
      assert bars == init + [bars[|bars| - 1]];
    }
  }

  // --- what Lua sees ---

  /** The last crossing of o among the messages is an enter. */
  predicate Shown(c: seq<Msg>, o: int) {
    c != [] && (var m := c[|c| - 1];
                if m.obj == o && m.signal == SIG_MOUSE_ENTER then true
                else if m.obj == o && m.signal == SIG_MOUSE_LEAVE then false
                else Shown(c[..|c| - 1], o))
  }

  /** Every move message lies after its object's enter and before its leave. */
  ghost predicate MovesInside(c: seq<Msg>) {
    forall i | 0 <= i < |c| && IsMove(c[i]) :: Shown(c[..i], c[i].obj)
  }

  /** The messages keep moves inside, and show what the calls have entered. */
  ghost predicate Agree(c: seq<Msg>, log: seq<Op>) {
    MovesInside(c) && forall o: nat :: Shown(c, o) == Inside(log, o)
  }

  /** Calls between drains, and drains with what each handler calls. */
  datatype Cut = Between(ops: seq<Op>) | Drained(script: seq<seq<Op>>)

  /** The calls the handlers of a drain make, in order. */
  function Made(p: seq<Msg>, n: nat, i: nat, script: seq<seq<Op>>): seq<Op>
    requires n <= |p|
    decreases n
  {
    if n == 0 then []
    else
      var run := HandlerOf(p[0], i, script);
      run + Made(PushAll(p, run)[1..], n - 1, i + 1, script)
  }

  function HandlerOf(m: Msg, i: nat, script: seq<seq<Op>>): seq<Op> {
    if m.signal < SIG_COUNT then Q.Handler(script, i) else []
  }

  /** What Lua has been told, what is pending, and every call that was made. */
  datatype Told = Told(delivered: seq<Msg>, pending: seq<Msg>, log: seq<Op>)

  function Tell(t: Told, cut: Cut): Told {
    match cut
    case Between(ops) => Told(t.delivered, PushAll(t.pending, ops), t.log + ops)
    case Drained(script) =>
      var n := |t.pending|;
      var r := Q.Deliver(t.pending, n, 0, script);
      Told(t.delivered + r.1, r.0, t.log + Made(t.pending, n, 0, script))
  }

  function TellAll(cuts: seq<Cut>): Told {
    if cuts == [] then Told([], [], []) else Tell(TellAll(cuts[..|cuts| - 1]), cuts[|cuts| - 1])
  }

  lemma {:induction false} ShownAppend(c: seq<Msg>, m: Msg, o: int)
    ensures Shown(c + [m], o) ==
            if m.obj == o && m.signal == SIG_MOUSE_ENTER then true
            else if m.obj == o && m.signal == SIG_MOUSE_LEAVE then false
            else Shown(c, o)
  {
    assert (c + [m])[..|c|] == c;
  }

  /** Overwriting a move with a move changes no crossing. */
  lemma ShownReplace(c: seq<Msg>, j: nat, m: Msg, o: int)
    requires j < |c| && IsMove(c[j]) && IsMove(m)
    ensures Shown(c[j := m], o) == Shown(c, o)
    decreases |c|
  {
    var n := |c| - 1;
    if j < n {
      assert c[j := m][..n] == c[..n][j := m];
      ShownReplace(c[..n], j, m, o);
    } else {
      assert c[j := m][..n] == c[..n];
    }
  }

  lemma FoldKeepsInside(all: seq<Msg>, k: nat, m: Msg)
    requires MovesInside(all) && k < |all| && IsMove(all[k]) && IsMove(m) && all[k].obj == m.obj
    ensures MovesInside(all[k := m])
    ensures forall o: int :: Shown(all[k := m], o) == Shown(all, o)
  {
    var d := all[k := m];
    forall o: int ensures Shown(d, o) == Shown(all, o) { ShownReplace(all, k, m, o); }
    forall i | 0 <= i < |d| && IsMove(d[i]) ensures Shown(d[..i], d[i].obj) {
      if k < i {
        assert d[..i] == all[..i][k := m];
        ShownReplace(all[..i], k, m, d[i].obj);
      } else {
        assert d[..i] == all[..i];
      }
    }
  }

  lemma {:induction false} AppendKeepsInside(all: seq<Msg>, m: Msg)
    requires MovesInside(all) && (IsMove(m) ==> Shown(all, m.obj))
    ensures MovesInside(all + [m])
  {
    var d := all + [m];
    forall i | 0 <= i < |d| && IsMove(d[i]) ensures Shown(d[..i], d[i].obj) {
      assert d[..i] == all[..i];
      if i == |all| { assert all[..i] == all; }
    }
  }

  /** One call behind delivered messages: the fold cannot reach into them. */
  lemma {:induction false} FoldOrAppend(c: seq<Msg>, pending: seq<Msg>, log: seq<Op>, op: Op)
    requires Agree(c + pending, log) && HoverOp(op) && InOrder(log, op)
    ensures Agree(c + Push(pending, op), log + [op])
  {
    var all := c + pending;
    Logged(log, op);
    var j := if op.Move? then FindMove(pending, op.obj) else -1;
    if j >= 0 {
      var m := MoveMsg(op.obj, op.x, op.y);
      assert c + Push(pending, op) == all[|c| + j := m];
      FoldKeepsInside(all, |c| + j, m);
    } else {
      var m := if op.Move? then MoveMsg(op.obj, op.x, op.y) else op.msg;
      assert c + Push(pending, op) == all + [m];
      AppendKeepsInside(all, m);
      forall o: nat ensures Shown(all + [m], o) == Inside(log + [op], o) { ShownAppend(all, m, o); }
    }
  }

  /** A batch of calls behind delivered messages c, on whatever is pending. */
  lemma {:induction false} SegmentMovesInside(c: seq<Msg>, pending: seq<Msg>, log: seq<Op>, ops: seq<Op>)
    requires Agree(c + pending, log) && Ordered(log + ops) && HoverLog(ops)
    ensures Agree(c + PushAll(pending, ops), log + ops)
    decreases |ops|
  {
    if ops == [] {
      assert log + ops == log;
    } else {
      var n := |ops| - 1;
      var init, op := ops[..n], ops[n];
      assert ops == init + [op] && log + ops == (log + init) + [op];
      Logged(log + init, op);
      SegmentMovesInside(c, pending, log, init);
      assert HoverOp(op);
      FoldOrAppend(c, PushAll(pending, init), log + init, op);
    }
  }

  /** A drained message is the one Lua is told: calls made while it is in its place can
      overwrite its coordinates only. */
  lemma {:induction false} FrontKeepsObject(p: seq<Msg>, ops: seq<Op>)
    requires p != []
    ensures var m := PushAll(p, ops)[0]; m == p[0] || (IsMove(m) && IsMove(p[0]) && m.obj == p[0].obj)
    decreases |ops|
  {
    if ops != [] { FrontKeepsObject(p, ops[..|ops| - 1]); }
  }

  lemma FrontIsTold(d: seq<Msg>, q: seq<Msg>, m: Msg, log: seq<Op>)
    requires q != [] && Agree(d + q, log) && (q[0] == m || (IsMove(q[0]) && IsMove(m) && q[0].obj == m.obj))
    ensures Agree((d + [m]) + q[1..], log)
  {
    var all := d + q;
    assert (d + [m]) + q[1..] == all[|d| := m];
    if q[0] == m {
      assert all[|d| := m] == all;
    } else {
      FoldKeepsInside(all, |d|, m);
    }
  }

  /** A message without a signal name is dropped, and was neither crossing nor move. */
  lemma {:induction false} DropKeepsInside(d: seq<Msg>, m: Msg, rest: seq<Msg>)
    requires m.signal >= SIG_COUNT
    ensures forall o: int :: Shown(d + [m] + rest, o) == Shown(d + rest, o)
    ensures MovesInside(d + [m] + rest) ==> MovesInside(d + rest)
    decreases |rest|
  {
    if rest == [] {
      assert d + [m] + rest == d + [m] && d + rest == d;
      forall o: int ensures Shown(d + [m], o) == Shown(d, o) { ShownAppend(d, m, o); }
      if MovesInside(d + [m]) { InsidePrefix(d, [m]); }
    } else {
      var init, last := rest[..|rest| - 1], rest[|rest| - 1];
      var a, b := d + [m] + init, d + init;
      assert d + [m] + rest == a + [last] && d + rest == b + [last];
      DropKeepsInside(d, m, init);
      forall o: int ensures Shown(a + [last], o) == Shown(b + [last], o) {
        ShownAppend(a, last, o);
        ShownAppend(b, last, o);
      }
      if MovesInside(a + [last]) {
        InsidePrefix(a, [last]);
        assert (a + [last])[..|a|] == a;
        AppendKeepsInside(b, last);
      }
    }
  }

  lemma InsidePrefix(a: seq<Msg>, b: seq<Msg>)
    requires MovesInside(a + b)
    ensures MovesInside(a)
  {
    forall i | 0 <= i < |a| && IsMove(a[i]) ensures Shown(a[..i], a[i].obj) {
      assert (a + b)[i] == a[i] && (a + b)[..i] == a[..i];
    }
  }

  lemma {:induction false} OrderedPrefix(a: seq<Op>, b: seq<Op>)
    requires Ordered(a + b)
    ensures Ordered(a)
    decreases |b|
  {
    if b == [] {
      assert a + b == a;
    } else {
      assert (a + b)[..|a + b| - 1] == a + b[..|b| - 1];
      OrderedPrefix(a, b[..|b| - 1]);
    }
  }

  /** One slot of a drain: its message is told, or dropped, and its handler's calls act on
      what is pending. */
  lemma SlotMovesInside(d: seq<Msg>, p: seq<Msg>, run: seq<Op>, log: seq<Op>)
    requires p != [] && Agree(d + p, log) && Ordered(log + run) && HoverLog(run)
    requires p[0].signal >= SIG_COUNT ==> run == []
    ensures var told := if p[0].signal < SIG_COUNT then [p[0]] else [];
            Agree((d + told) + PushAll(p, run)[1..], log + run)
  {
    if p[0].signal < SIG_COUNT {
      SegmentMovesInside(d, p, log, run);
      FrontKeepsObject(p, run);
      FrontIsTold(d, PushAll(p, run), p[0], log + run);
    } else {
      assert d + [p[0]] + p[1..] == d + p && log + run == log && d + [] == d;
      DropKeepsInside(d, p[0], p[1..]);
    }
  }

  /** The front of a drain: what Lua is told of it, what its handler calls, and the rest. */
  lemma FrontDrained(d: seq<Msg>, p: seq<Msg>, n: nat, i: nat, script: seq<seq<Op>>, log: seq<Op>)
    returns (told: seq<Msg>, q: seq<Msg>, run: seq<Op>)
    requires 0 < n <= |p| && Agree(d + p, log)
    requires Ordered(log + Made(p, n, i, script)) && HoverLog(Made(p, n, i, script))
    ensures n - 1 <= |q| && Agree((d + told) + q, log + run)
    ensures var rest := Made(q, n - 1, i + 1, script);
            Made(p, n, i, script) == run + rest && Ordered((log + run) + rest) && HoverLog(rest)
    ensures var r := Q.Deliver(q, n - 1, i + 1, script); Q.Deliver(p, n, i, script) == (r.0, told + r.1)
  {
    run := HandlerOf(p[0], i, script);
    q := PushAll(p, run)[1..];
    told := if p[0].signal < SIG_COUNT then [p[0]] else [];
    MadeSplits(log, run, Made(q, n - 1, i + 1, script));
    SlotMovesInside(d, p, run, log);
    DeliverFront(p, n, i, script);
  }

  /** A drain from any slot on, whatever its handlers call. */
  lemma {:induction false} DrainMovesInside(d: seq<Msg>, p: seq<Msg>, n: nat, i: nat, script: seq<seq<Op>>,
                                            log: seq<Op>)
    requires n <= |p| && Agree(d + p, log)
    requires Ordered(log + Made(p, n, i, script)) && HoverLog(Made(p, n, i, script))
    ensures var r := Q.Deliver(p, n, i, script); Agree((d + r.1) + r.0, log + Made(p, n, i, script))
    decreases n
  {
    if n == 0 {
      assert d + [] == d && log + [] == log;
    } else {
      var told, q, run := FrontDrained(d, p, n, i, script, log);
      DrainMovesInside(d + told, q, n - 1, i + 1, script, log + run);
      var r := Q.Deliver(q, n - 1, i + 1, script);
      ToldTogether(d, told, r.1, r.0, log, run, Made(q, n - 1, i + 1, script));
    }
  }

  lemma ToldTogether(d: seq<Msg>, told: seq<Msg>, more: seq<Msg>, pending: seq<Msg>, log: seq<Op>, run: seq<Op>,
                     rest: seq<Op>)
    requires Agree(((d + told) + more) + pending, (log + run) + rest)
    ensures Agree((d + (told + more)) + pending, log + (run + rest))
  {
    assert (d + told) + more == d + (told + more);
    assert (log + run) + rest == log + (run + rest);
  }

  lemma MadeSplits(log: seq<Op>, run: seq<Op>, rest: seq<Op>)
    requires Ordered(log + (run + rest)) && HoverLog(run + rest)
    ensures Ordered(log + run) && HoverLog(run) && HoverLog(rest)
    ensures (log + run) + rest == log + (run + rest)
  {
    assert (log + run) + rest == log + (run + rest);
    OrderedPrefix(log + run, rest);
    forall i | 0 <= i < |run| ensures HoverOp(run[i]) { assert (run + rest)[i] == run[i]; }
    forall i | 0 <= i < |rest| ensures HoverOp(rest[i]) { assert (run + rest)[|run| + i] == rest[i]; }
  }

  lemma DeliverFront(p: seq<Msg>, n: nat, i: nat, script: seq<seq<Op>>)
    requires 0 < n <= |p|
    ensures var told := if p[0].signal < SIG_COUNT then [p[0]] else [];
            var r := Q.Deliver(PushAll(p, HandlerOf(p[0], i, script))[1..], n - 1, i + 1, script);
            Q.Deliver(p, n, i, script) == (r.0, told + r.1)
  {
    if p[0].signal >= SIG_COUNT {
      var r := Q.Deliver(p[1..], n - 1, i + 1, script);
      assert PushAll(p, []) == p && [] + r.1 == r.1;
    }
  }

  /** Wherever the drains fall, and whatever their handlers call, every move Lua receives on
      an object comes after that object's enter and before its leave. */
  lemma {:induction false} DeliveredMovesInside(cuts: seq<Cut>)
    requires var log := TellAll(cuts).log; Ordered(log) && HoverLog(log)
    ensures var t := TellAll(cuts); Agree(t.delivered + t.pending, t.log) && MovesInside(t.delivered)
    decreases |cuts|
  {
    var t := TellAll(cuts);
    if cuts != [] {
      var before, last := TellAll(cuts[..|cuts| - 1]), cuts[|cuts| - 1];
      var made := if last.Between? then last.ops else Made(before.pending, |before.pending|, 0, last.script);
      assert [] + (before.log + made) == before.log + made && [] + before.log == before.log;
      MadeSplits([], before.log, made);
      DeliveredMovesInside(cuts[..|cuts| - 1]);
      match last {
        case Between(ops) => SegmentMovesInside(before.delivered, before.pending, before.log, ops);
        case Drained(script) =>
          DrainMovesInside(before.delivered, before.pending, |before.pending|, 0, script, before.log);
      }
    }
    InsidePrefix(t.delivered, t.pending);
  }

  /** The pointer's part of a log: what no other producer queued. */
  function PointerCalls(log: seq<Op>): seq<Op> {
    if log == [] then []
    else PointerCalls(log[..|log| - 1]) + if Foreign(log[|log| - 1]) then [] else [log[|log| - 1]]
  }

  /** Other producers' calls change neither what is entered nor whether the rest is in order. */
  lemma {:induction false} OthersDoNotMatter(log: seq<Op>)
    ensures forall o: nat :: Inside(log, o) == Inside(PointerCalls(log), o)
    ensures Ordered(log) == Ordered(PointerCalls(log)) && HoverLog(log) == HoverLog(PointerCalls(log))
    decreases |log|
  {
    if log != [] {
      var before, op := log[..|log| - 1], log[|log| - 1];
      assert log == before + [op];
      OthersDoNotMatter(before);
      var mine := PointerCalls(before);
      Logged(before, op);
      HoverLogSnoc(before, op);
      if !Foreign(op) {
        Logged(mine, op);
        HoverLogSnoc(mine, op);
        assert PointerCalls(log) == mine + [op];
        assert InOrder(before, op) == InOrder(mine, op);
      } else {
        assert PointerCalls(log) == mine;
      }
    }
  }

  lemma HoverLogSnoc(log: seq<Op>, op: Op)
    ensures HoverLog(log + [op]) <==> HoverLog(log) && HoverOp(op)
  {
    var more := log + [op];
    assert more[|log|] == op;
    if HoverLog(more) {
      forall i | 0 <= i < |log| ensures HoverOp(log[i]) { assert more[i] == log[i]; }
    }
  }

  /** The two together: any run of pointer steps, with any calls of other producers between
      them, some of them made by the handlers of drains that fall anywhere. What Lua has been
      told and will be told is what is tracked. */
  lemma PointerMovesInside(steps: seq<Step>, cuts: seq<Cut>)
    requires PointerCalls(TellAll(cuts).log) == PointerCalls(Ops(Run(steps).log))
    ensures var t := TellAll(cuts);
            && MovesInside(t.delivered) && MovesInside(t.delivered + t.pending)
            && forall o: nat :: Shown(t.delivered + t.pending, o) <==> o in Slots(Run(steps))
  {
    RunsAreTracked(steps);
    OthersDoNotMatter(Ops(Run(steps).log));
    OthersDoNotMatter(TellAll(cuts).log);
    DeliveredMovesInside(cuts);
  }

  // --- the fields that the C code updates ---

  class Pointer {
    var under: Under                // globalconf.mouse_under.type and ptr
    var drawable: Option<nat>       // globalconf.drawable_under_mouse
    var ignoreNext: bool
    var holds: Holds
    var log: Log

    ghost function Model(): State
      reads this
    {
      State(under, drawable, ignoreNext, holds, log)
    }

    constructor ()
      ensures Model() == Initial
    {
      under, drawable, ignoreNext, holds, log := UnderNone, None, false, Holds(multiset{}, 0), NoCalls;
    }

    method Queue(op: Op)
      modifies this`log
      ensures log == Then(old(log), op)
    {
      log := Then(log, op);
    }

    method MouseEmitLeave()
      modifies this
      ensures Model() == LeaveAll(old(Model()))
    {
      if under.UnderClient? {
        Queue(Leave(ClientObject(under.client)));
      } else if under.UnderDrawin? {
        Queue(Leave(DrawinObject(under.drawin)));
      }
      under := UnderNone;
      LeaveUnder();
    }

    method LeaveUnder()
      modifies this
      ensures Model() == LeaveDrawable(old(Model()))
    {
      if drawable.Some? {
        Queue(Leave(DrawableObject(drawable.value)));
        holds := Unref(holds, drawable.value);
        drawable := None;
      }
    }

    method DrawableUnderMouse(d: Option<nat>)
      modifies this
      ensures Model() == SetDrawable(old(Model()), d)
    {
      if d.Some? { holds := Ref(holds, d.value); }
      if d == drawable {
        if d.Some? { holds := Unref(holds, d.value); }
        return;
      }
      LeaveUnder();
      if d.Some? {
        drawable := d;
        Queue(Enter(DrawableObject(d.value)));
      }
    }

    method TrackClient(c: nat, bar: Titlebar, x: int, y: int)
      modifies this
      ensures Model() == Track(old(Model()), HitClient(c, bar), x, y)
    {
      if !under.UnderClient? || under.client != c {
        MouseEmitLeave();
        Queue(Enter(ClientObject(c)));
        under := UnderClient(c);
      }
      assert Model() == EnterObject(old(Model()), UnderClient(c));
      Queue(Move(ClientObject(c), x, y));
      if bar.Titlebar? {
        if bar.pushable {
          DrawableUnderMouse(Some(bar.drawable));
          Queue(Move(DrawableObject(bar.drawable), bar.x, bar.y));
        }
      } else if drawable.Some? {
        DrawableUnderMouse(None);
      }
    }

    method TrackDrawin(w: nat, d: nat, x: int, y: int)
      modifies this
      ensures Model() == Track(old(Model()), HitDrawin(w, d), x, y)
    {
      if !under.UnderDrawin? || under.drawin != w {
        MouseEmitLeave();
        Queue(Enter(DrawinObject(w)));
        under := UnderDrawin(w);
      }
      assert Model() == EnterObject(old(Model()), UnderDrawin(w));
      DrawableUnderMouse(Some(d));
      Queue(Move(DrawableObject(d), x, y));
    }

    /** The tracking part of motionnotify. */
    method Motion(timed: bool, consumed: bool, hit: Hit, x: int, y: int)
      modifies this
      ensures Model() == Take(old(Model()), Step.Motion(timed, consumed, hit, x, y))
      ensures timed && !consumed && !old(ignoreNext) ==>
                && HitSlots(old(Model()), hit, Model())
                && Queues(old(Model()), Model(), Crossings(old(Model()), Model()), HitMoves(hit, x, y))
    {
      MotionTracksTheHit(Model(), timed, consumed, hit, x, y);
      if consumed { return; }
      if timed && !ignoreNext {
        match hit {
          case HitNothing =>
            if under != UnderNone { MouseEmitLeave(); }
          case HitClient(c, bar) => TrackClient(c, bar, x, y);
          case HitDrawin(w, d) => TrackDrawin(w, d, x, y);
        }
      }
      if ignoreNext {
        ignoreNext := false;
      }
    }

    /** client_unmanage's part in the tracking. */
    method Unmanage(c: nat, bars: seq<nat>)
      modifies this
      ensures Model() == Take(old(Model()), Step.Unmanage(c, bars))
    {
      if under == UnderClient(c) {
        Queue(Leave(ClientObject(c)));
        under := UnderNone;
      }
      Queue(ListChanged);
      ghost var s := Model();
      for i := 0 to |bars|
        invariant Model() == LeaveTitlebars(s, bars[..i])
      {
        assert bars[..i + 1][..i] == bars[..i];
        if drawable == Some(bars[i]) {
          DrawableUnderMouse(None);
        }
      }
      assert bars[..|bars|] == bars;
    }
  }
}

/**
 The deferred signal queue: producers append events that hold registry references, a
 move overwrites the pending move of its object, and a drain dispatches what was pending
 when it began. Handlers run inside the drain and may queue more.
 */
module EventQueue {
  import R = LuaRegistry
  import opened EventLog

  datatype Event = Event(kind: EventType, signal: nat, objectRef: int, nargs: nat, argsRef: int, cls: nat)

  /** queue_buf[..queue_len] and the registry that the references live in. */
  datatype State = State(q: seq<Event>, reg: R.Registry)

  const QUEUE_INITIAL_CAP := 64

  // --- the operations, as functions of the state ---

  function HeldObject(live: map<int, R.Value>, ref: int): int {
    if ref in live && live[ref].Object? then live[ref].id else NO_OBJECT
  }

  const NIL := 0

  /** drain_unpack_args: the first nargs entries of the captured table. */
  function Unpack(live: map<int, R.Value>, ref: int, nargs: nat): seq<int> {
    if ref == R.NOREF then []
    else
      var vals := if ref in live && live[ref].Args? then live[ref].vals else [];
      seq(nargs, i requires 0 <= i => if i < |vals| then vals[i] else NIL)
  }

  /** The message a dispatch of e delivers. */
  function Decode(e: Event, live: map<int, R.Value>): Msg {
    Msg(e.kind, e.signal, HeldObject(live, e.objectRef), Unpack(live, e.argsRef, e.nargs), e.cls)
  }

  function DecodeAll(q: seq<Event>, live: map<int, R.Value>): (c: seq<Msg>)
    ensures |c| == |q| && forall i | 0 <= i < |q| :: c[i] == Decode(q[i], live)
  {
    seq(|q|, i requires 0 <= i < |q| => Decode(q[i], live))
  }

  function Pending(s: State): seq<Msg> {
    DecodeAll(s.q, s.reg.live)
  }

  /** The backward scan of some_event_queue_move. */
  function FindSame(q: seq<Event>, live: map<int, R.Value>, o: int): (j: int)
    ensures -1 <= j < |q|
    ensures j >= 0 ==> q[j].signal == SIG_MOUSE_MOVE && HeldObject(live, q[j].objectRef) == o
  {
    if q == [] then -1
    else
      var n := |q| - 1;
      if q[n].signal != SIG_MOUSE_MOVE then -1
      else if HeldObject(live, q[n].objectRef) == o then n
      else FindSame(q[..n], live, o)
  }

  /** queue_capture_args: no reference for no arguments. */
  function CaptureRef(reg: R.Registry, args: seq<int>): int {
    if args == [] then R.NOREF else R.Fresh(reg)
  }

  function Capture(reg: R.Registry, args: seq<int>): R.Registry {
    if args == [] then reg else R.Ref(reg, R.Args(args))
  }

  function Append(s: State, m: Msg): State {
    var reg := if m.kind == ObjectEvent then R.Ref(s.reg, R.Object(m.obj)) else s.reg;
    var ref := if m.kind == ObjectEvent then R.Fresh(s.reg) else R.NOREF;
    State(s.q + [Event(m.kind, m.signal, ref, |m.args|, CaptureRef(reg, m.args), m.cls)], Capture(reg, m.args))
  }

  function Enqueue(s: State, op: Op): (s': State)
    ensures |s.q| <= |s'.q|
  {
    match op
    case Emit(m) => Append(s, m)
    case Move(o, x, y) =>
      var j := FindSame(s.q, s.reg.live, o);
      if j < 0 then Append(s, MoveMsg(o, x, y))
      else
        var reg := R.Unref(s.reg, s.q[j].argsRef);
        State(s.q[j := s.q[j].(argsRef := R.Fresh(reg))], R.Ref(reg, R.Args([x, y])))
  }

  /** What happens to the queue and the registry: a producer call, or another user of the
      registry taking a reference or giving back one of its own. */
  datatype Act = Produce(op: Op) | Hold(v: R.Value) | GiveBack(ref: int)

  function Perform(s: State, act: Act): (s': State)
    ensures |s.q| <= |s'.q|
  {
    match act
    case Produce(op) => Enqueue(s, op)
    case Hold(v) => s.(reg := R.Ref(s.reg, v))
    case GiveBack(ref) => s.(reg := R.Unref(s.reg, ref))
  }

  function PerformAll(s: State, acts: seq<Act>): (s': State)
    ensures |s.q| <= |s'.q|
  {
    if acts == [] then s else Perform(PerformAll(s, acts[..|acts| - 1]), acts[|acts| - 1])
  }

  function Release(reg: R.Registry, e: Event): R.Registry {
    R.Unref(R.Unref(reg, e.objectRef), e.argsRef)
  }

  function ReleaseAll(reg: R.Registry, q: seq<Event>): R.Registry {
    if q == [] then reg else Release(ReleaseAll(reg, q[..|q| - 1]), q[|q| - 1])
  }

  /** A handler is whatever it does: script[i] is what happens while event i is dispatched. */
  function Handler<T>(script: seq<seq<T>>, i: nat): seq<T> {
    if i < |script| then script[i] else []
  }

  /** Slots without a signal name or without their receiver are only released. */
  predicate Dispatchable(e: Event) {
    e.signal < SIG_COUNT && (e.kind == ObjectEvent ==> e.objectRef != R.NOREF)
  }

  /** A drain from slot i on, with count slots to dispatch: the state it leaves and
      the messages it delivers. The event is copied before its handler runs, and
      the copy's references are released after. */
  function DrainFrom(s: State, i: nat, count: nat, script: seq<seq<Act>>): (State, seq<Msg>)
    requires i <= count <= |s.q|
    decreases count - i
  {
    if i == count then (State(s.q[count..], s.reg), [])
    else
      var e := s.q[i];
      if Dispatchable(e) then
        var t := PerformAll(s, Handler(script, i));
        var r := DrainFrom(t.(reg := Release(t.reg, e)), i + 1, count, script);
        (r.0, [Decode(e, s.reg.live)] + r.1)
      else
        DrainFrom(s.(reg := Release(s.reg, e)), i + 1, count, script)
  }

  function Drain(s: State, script: seq<seq<Act>>): (State, seq<Msg>) {
    DrainFrom(s, 0, |s.q|, script)
  }

  // --- who holds which reference ---

  function Refs(e: Event): set<int> {
    {e.objectRef, e.argsRef} - {R.NOREF}
  }

  ghost predicate GoodEvent(e: Event, live: map<int, R.Value>) {
    && (if e.kind == ObjectEvent then e.objectRef in live && live[e.objectRef].Object? else e.objectRef == R.NOREF)
    && (if e.nargs > 0 then e.argsRef in live && live[e.argsRef].Args? && |live[e.argsRef].vals| == e.nargs
        else e.argsRef == R.NOREF)
    && (e.signal == SIG_MOUSE_MOVE ==> e.kind == ObjectEvent && e.nargs == 2 && e.cls == 0)
    && R.NOREF !in live
  }

  ghost predicate HeldBySome(q: seq<Event>, k: int) {
    exists i :: 0 <= i < |q| && k in Refs(q[i])
  }

  predicate Apart(q: seq<Event>) {
    forall i, j | 0 <= i < j < |q| :: Refs(q[i]) !! Refs(q[j])
  }

  ghost predicate EachGood(q: seq<Event>, live: map<int, R.Value>, base: map<int, R.Value>) {
    forall i | 0 <= i < |q| :: GoodEvent(q[i], live) && Refs(q[i]) !! base.Keys
  }

  ghost predicate EachHeld(q: seq<Event>, held: set<int>, base: map<int, R.Value>) {
    forall k | k in held :: k in base || HeldBySome(q, k)
  }

  /** Every held reference is held by exactly one owner: base, or one event of q. */
  ghost predicate OwnedIn(q: seq<Event>, live: map<int, R.Value>, base: map<int, R.Value>) {
    && R.NOREF !in live
    && (forall k | k in base :: k in live && live[k] == base[k])
    && EachGood(q, live, base) && Apart(q) && EachHeld(q, live.Keys, base)
  }

  ghost predicate Owned(s: State, base: map<int, R.Value>) {
    R.Valid(s.reg) && OwnedIn(s.q, s.reg.live, base)
  }

  lemma {:induction false} FindSameIsFindMove(q: seq<Event>, live: map<int, R.Value>, o: int)
    requires o >= 0
    ensures FindSame(q, live, o) == FindMove(DecodeAll(q, live), o)
    decreases |q|
  {
    if q != [] {
      var n := |q| - 1;
      FindSameIsFindMove(q[..n], live, o);
      assert DecodeAll(q, live)[..n] == DecodeAll(q[..n], live);
    }
  }

  /** A good event reads the same after references are added. */
  lemma GoodEventGrows(e: Event, live: map<int, R.Value>, live': map<int, R.Value>)
    requires GoodEvent(e, live) && R.NOREF !in live'
    requires forall k | k in live :: k in live' && live'[k] == live[k]
    ensures GoodEvent(e, live') && Refs(e) <= live.Keys && Decode(e, live') == Decode(e, live)
  {
  }

  /** One more event, with references nobody held. */
  lemma AppendApart(q: seq<Event>, held: set<int>, base: map<int, R.Value>, e: Event)
    requires Apart(q) && EachHeld(q, held, base) && Refs(e) !! held && forall i | 0 <= i < |q| :: Refs(q[i]) <= held
    ensures Apart(q + [e]) && EachHeld(q + [e], held + Refs(e), base)
  {
    var r := q + [e];
    forall k | k in held + Refs(e) && k !in base ensures HeldBySome(r, k) {
      if k in Refs(e) {
        assert r[|q|] == e;
      } else {
        var i :| 0 <= i < |q| && k in Refs(q[i]);
        assert r[i] == q[i];
      }
    }
    forall i, j | 0 <= i < j < |r| ensures Refs(r[i]) !! Refs(r[j]) {
      assert j < |q| ==> r[j] == q[j];
    }
  }

  lemma AppendGood(q: seq<Event>, live: map<int, R.Value>, base: map<int, R.Value>, live': map<int, R.Value>)
    requires EachGood(q, live, base) && R.NOREF !in live'
    requires forall k | k in live :: k in live' && live'[k] == live[k]
    ensures EachGood(q, live', base) && DecodeAll(q, live') == DecodeAll(q, live)
    ensures forall i | 0 <= i < |q| :: Refs(q[i]) <= live.Keys
  {
    forall i | 0 <= i < |q|
      ensures GoodEvent(q[i], live') && Refs(q[i]) <= live.Keys && Decode(q[i], live') == Decode(q[i], live)
    {
      GoodEventGrows(q[i], live, live');
    }
  }

  lemma AppendOwned(q: seq<Event>, live: map<int, R.Value>, base: map<int, R.Value>, e: Event, live': map<int, R.Value>)
    requires OwnedIn(q, live, base)
    requires live'.Keys == live.Keys + Refs(e) && Refs(e) !! live.Keys
    requires forall k | k in live :: live'[k] == live[k]
    requires GoodEvent(e, live')
    ensures OwnedIn(q + [e], live', base)
    ensures DecodeAll(q + [e], live') == DecodeAll(q, live) + [Decode(e, live')]
  {
    assert forall k | k in live :: k in live.Keys + Refs(e);
    AppendGood(q, live, base, live');
    AppendApart(q, live.Keys, base, e);
    assert Refs(e) !! base.Keys;
  }

  /** The registry after an append: the event's references are new, the rest is as before. */
  lemma AppendTakes(s: State, m: Msg)
    requires R.Valid(s.reg) && (m.kind == ObjectEvent ==> m.obj >= 0)
    ensures var t := Append(s, m); var e := t.q[|s.q|];
            && R.Valid(t.reg) && t.q == s.q + [e]
            && Refs(e) !! s.reg.live.Keys && t.reg.live.Keys == s.reg.live.Keys + Refs(e)
            && forall k | k in s.reg.live :: t.reg.live[k] == s.reg.live[k]
  {
    var t := Append(s, m);
    assert t.q == s.q + [t.q[|s.q|]];
    var reg1 := if m.kind == ObjectEvent then R.Ref(s.reg, R.Object(m.obj)) else s.reg;
    assert R.Valid(reg1);
  }

  /** Appending takes fresh references only and leaves the pending messages alone. */
  lemma AppendCorrect(s: State, base: map<int, R.Value>, m: Msg)
    requires Owned(s, base) && (m.kind == ObjectEvent <==> m.obj >= 0) && (m.kind != ObjectEvent ==> m.obj == NO_OBJECT)
    requires IsMove(m) ==> m.kind == ObjectEvent && |m.args| == 2 && m.cls == 0
    ensures Owned(Append(s, m), base) && Pending(Append(s, m)) == Pending(s) + [m]
  {
    var t := Append(s, m);
    AppendTakes(s, m);
    var e := t.q[|s.q|];
    AppendReads(s, m);
    AppendOwned(s.q, s.reg.live, base, e, t.reg.live);
  }

  /** The appended event reads back as the message. */
  lemma AppendReads(s: State, m: Msg)
    requires R.Valid(s.reg) && (m.kind == ObjectEvent <==> m.obj >= 0) && (m.kind != ObjectEvent ==> m.obj == NO_OBJECT)
    requires IsMove(m) ==> m.kind == ObjectEvent && |m.args| == 2 && m.cls == 0
    requires R.NOREF !in s.reg.live
    ensures var t := Append(s, m); var e := t.q[|s.q|];
            R.NOREF !in t.reg.live && GoodEvent(e, t.reg.live) && Decode(e, t.reg.live) == m
  {
    var t := Append(s, m);
    var e := t.q[|s.q|];
    var reg1 := if m.kind == ObjectEvent then R.Ref(s.reg, R.Object(m.obj)) else s.reg;
    assert R.Valid(reg1) && R.Valid(t.reg);
    assert Unpack(t.reg.live, e.argsRef, e.nargs) == m.args;
  }

  /** An event that does not hold the reference reads the same when it is reassigned. */
  lemma EventElsewhere(e: Event, live: map<int, R.Value>, a: int, v: R.Value)
    requires GoodEvent(e, live) && a in live && a !in Refs(e)
    ensures GoodEvent(e, live[a := v]) && Decode(e, live[a := v]) == Decode(e, live)
  {
  }

  lemma FoldOwned(q: seq<Event>, live: map<int, R.Value>, base: map<int, R.Value>, j: nat, a: int, v: R.Value)
    requires OwnedIn(q, live, base) && j < |q| && a in Refs(q[j]) && a in live && GoodEvent(q[j], live[a := v])
    ensures OwnedIn(q, live[a := v], base)
    ensures forall i | 0 <= i < |q| && i != j :: Decode(q[i], live[a := v]) == Decode(q[i], live)
  {
    FoldGood(q, live, base, j, a, v);
    assert live[a := v].Keys == live.Keys;
    assert a !in base;
  }

  lemma FoldGood(q: seq<Event>, live: map<int, R.Value>, base: map<int, R.Value>, j: nat, a: int, v: R.Value)
    requires EachGood(q, live, base) && Apart(q) && j < |q| && a in Refs(q[j]) && a in live
             && GoodEvent(q[j], live[a := v])
    ensures EachGood(q, live[a := v], base) && a !in base
    ensures forall i | 0 <= i < |q| && i != j :: Decode(q[i], live[a := v]) == Decode(q[i], live)
  {
    forall i | 0 <= i < |q|
      ensures GoodEvent(q[i], live[a := v])
      ensures i != j ==> Decode(q[i], live[a := v]) == Decode(q[i], live)
    {
      if i != j {
        assert Refs(q[i]) !! Refs(q[j]);
        EventElsewhere(q[i], live, a, v);
      }
    }
  }

  /** The fold's new table lies under the integer of the old one. */
  lemma {:induction false} FoldTakesBack(s: State, base: map<int, R.Value>, o: int, x: int, y: int)
    requires Owned(s, base) && o >= 0
    requires FindSame(s.q, s.reg.live, o) >= 0
    ensures var a := s.q[FindSame(s.q, s.reg.live, o)].argsRef; var t := Enqueue(s, Move(o, x, y));
            && a in s.reg.live && a != R.NOREF
            && t.q == s.q && R.Valid(t.reg) && t.reg.live == s.reg.live[a := R.Args([x, y])]
  {
    var j := FindSame(s.q, s.reg.live, o);
    assert GoodEvent(s.q[j], s.reg.live);
    assert R.Unref(s.reg, s.q[j].argsRef).free[0] == s.q[j].argsRef;
  }

  lemma FoldReads(q: seq<Event>, live: map<int, R.Value>, j: nat, a: int, o: nat, x: int, y: int)
    requires j < |q| && a != R.NOREF && q[j].argsRef == a && q[j].objectRef != a
             && HeldObject(live, q[j].objectRef) == o
    requires q[j].kind == ObjectEvent && q[j].signal == SIG_MOUSE_MOVE && q[j].nargs == 2 && q[j].cls == 0
    ensures Decode(q[j], live[a := R.Args([x, y])]) == MoveMsg(o, x, y)
  {
    assert Unpack(live[a := R.Args([x, y])], a, 2) == [x, y];
  }

  lemma DecodeFold(q: seq<Event>, live: map<int, R.Value>, live': map<int, R.Value>, j: nat, m: Msg)
    requires j < |q| && Decode(q[j], live') == m
    requires forall i | 0 <= i < |q| && i != j :: Decode(q[i], live') == Decode(q[i], live)
    ensures DecodeAll(q, live') == DecodeAll(q, live)[j := m]
  {
  }

  /** Folding releases the old table and takes the integer back for the new one. */
  lemma FoldCorrect(s: State, base: map<int, R.Value>, o: int, x: int, y: int)
    requires Owned(s, base) && o >= 0
    requires FindSame(s.q, s.reg.live, o) >= 0
    ensures Owned(Enqueue(s, Move(o, x, y)), base)
    ensures Pending(Enqueue(s, Move(o, x, y))) == Pending(s)[FindSame(s.q, s.reg.live, o) := MoveMsg(o, x, y)]
  {
    var j := FindSame(s.q, s.reg.live, o);
    var a, v := s.q[j].argsRef, R.Args([x, y]);
    FoldTakesBack(s, base, o, x, y);
    FoldKeepsGood(s.q[j], s.reg.live, v);
    FoldOwned(s.q, s.reg.live, base, j, a, v);
    FoldReads(s.q, s.reg.live, j, a, o, x, y);
    DecodeFold(s.q, s.reg.live, s.reg.live[a := v], j, MoveMsg(o, x, y));
  }

  lemma FoldKeepsGood(e: Event, live: map<int, R.Value>, v: R.Value)
    requires GoodEvent(e, live) && e.signal == SIG_MOUSE_MOVE && v.Args? && |v.vals| == 2
    ensures e.argsRef in live && e.argsRef in Refs(e) && e.objectRef != e.argsRef && GoodEvent(e, live[e.argsRef := v])
  {
  }

  /** One producer call: references stay exactly owned, and the pending messages
      change as the log semantics says. */
  lemma EnqueueCorrect(s: State, base: map<int, R.Value>, op: Op)
    requires Owned(s, base) && WellFormed(op)
    ensures Owned(Enqueue(s, op), base)
    ensures Pending(Enqueue(s, op)) == Push(Pending(s), op)
  {
    match op
    case Emit(m) => AppendCorrect(s, base, m);
    case Move(o, x, y) =>
      FindSameIsFindMove(s.q, s.reg.live, o);
      if FindSame(s.q, s.reg.live, o) < 0 {
        AppendCorrect(s, base, MoveMsg(o, x, y));
      } else {
        FoldCorrect(s, base, o, x, y);
      }
  }

  // --- other users of the registry ---

  /** What others hold after the act. */
  function BaseAfter(s: State, base: map<int, R.Value>, act: Act): map<int, R.Value> {
    match act
    case Produce(_) => base
    case Hold(v) => base[R.Fresh(s.reg) := v]
    case GiveBack(ref) => base - {ref}
  }

  function BaseAfterAll(s: State, base: map<int, R.Value>, acts: seq<Act>): map<int, R.Value> {
    if acts == [] then base
    else
      var init := acts[..|acts| - 1];
      BaseAfter(PerformAll(s, init), BaseAfterAll(s, base, init), acts[|acts| - 1])
  }

  /** Producers call as they do, and the others give back only what they hold. */
  predicate Allowed(base: map<int, R.Value>, act: Act) {
    (act.Produce? ==> WellFormed(act.op)) && (act.GiveBack? ==> act.ref in base)
  }

  predicate AllowedAll(s: State, base: map<int, R.Value>, acts: seq<Act>) {
    acts != [] ==>
      var init := acts[..|acts| - 1];
      AllowedAll(s, base, init) && Allowed(BaseAfterAll(s, base, init), acts[|acts| - 1])
  }

  /** The producer calls among the acts. */
  function Produced(acts: seq<Act>): seq<Op> {
    if acts == [] then []
    else
      var last := acts[|acts| - 1];
      Produced(acts[..|acts| - 1]) + if last.Produce? then [last.op] else []
  }

  lemma HoldOwned(s: State, base: map<int, R.Value>, v: R.Value)
    requires Owned(s, base)
    ensures Owned(Perform(s, Hold(v)), base[R.Fresh(s.reg) := v]) && Pending(Perform(s, Hold(v))) == Pending(s)
  {
    var f, live := R.Fresh(s.reg), s.reg.live;
    var live', base' := live[f := v], base[f := v];
    assert R.Ref(s.reg, v).live == live';
    AppendGood(s.q, live, base, live');
    forall i | 0 <= i < |s.q| ensures Refs(s.q[i]) !! base'.Keys {
      assert Refs(s.q[i]) <= live.Keys && Refs(s.q[i]) !! base.Keys;
    }
    assert EachGood(s.q, live', base');
    forall k | k in live'.Keys ensures k in base' || HeldBySome(s.q, k) {
      assert k == f || k in live.Keys;
    }
  }

  lemma GiveBackOwned(s: State, base: map<int, R.Value>, ref: int)
    requires Owned(s, base) && ref in base
    ensures Owned(Perform(s, GiveBack(ref)), base - {ref}) && Pending(Perform(s, GiveBack(ref))) == Pending(s)
  {
    var live := s.reg.live;
    assert ref in live && R.Unref(s.reg, ref).live == live - {ref};
    forall i | 0 <= i < |s.q|
      ensures GoodEvent(s.q[i], live - {ref}) && Decode(s.q[i], live - {ref}) == Decode(s.q[i], live)
    {
      assert Refs(s.q[i]) !! base.Keys;
      EventAway(s.q[i], live, {ref});
    }
    assert EachGood(s.q, live - {ref}, base - {ref});
    forall k | k in (live - {ref}).Keys ensures k in base - {ref} || HeldBySome(s.q, k) {
      assert k in live.Keys;
    }
  }

  /** An event reads the same when references it does not hold are released. */
  lemma EventAway(e: Event, live: map<int, R.Value>, gone: set<int>)
    requires GoodEvent(e, live) && Refs(e) !! gone
    ensures GoodEvent(e, live - gone) && Decode(e, live - gone) == Decode(e, live)
  {
  }

  /** Whatever happens, every reference keeps one owner, and only producer calls change
      what is pending. */
  lemma PerformCorrect(s: State, base: map<int, R.Value>, act: Act)
    requires Owned(s, base) && Allowed(base, act)
    ensures Owned(Perform(s, act), BaseAfter(s, base, act))
    ensures Pending(Perform(s, act)) == if act.Produce? then Push(Pending(s), act.op) else Pending(s)
  {
    match act
    case Produce(op) => EnqueueCorrect(s, base, op);
    case Hold(v) => HoldOwned(s, base, v);
    case GiveBack(ref) => GiveBackOwned(s, base, ref);
  }

  lemma {:induction false} PerformAllCorrect(s: State, base: map<int, R.Value>, acts: seq<Act>)
    requires Owned(s, base) && AllowedAll(s, base, acts)
    ensures Owned(PerformAll(s, acts), BaseAfterAll(s, base, acts))
    ensures Pending(PerformAll(s, acts)) == PushAll(Pending(s), Produced(acts))
    decreases |acts|
  {
    if acts != [] {
      var init, last := acts[..|acts| - 1], acts[|acts| - 1];
      PerformAllCorrect(s, base, init);
      PerformCorrect(PerformAll(s, init), BaseAfterAll(s, base, init), last);
      if last.Produce? {
        PushAllSnoc(Pending(s), Produced(init), last.op);
      } else {
        assert Produced(acts) == Produced(init);
      }
    }
  }

  lemma PushAllSnoc(c: seq<Msg>, ops: seq<Op>, op: Op)
    ensures PushAll(c, ops + [op]) == Push(PushAll(c, ops), op)
  {
    assert (ops + [op])[..|ops|] == ops;
  }

  lemma {:induction false} ProducedWellFormed(s: State, base: map<int, R.Value>, acts: seq<Act>)
    requires AllowedAll(s, base, acts)
    ensures WellFormedLog(Produced(acts))
    decreases |acts|
  {
    if acts != [] { ProducedWellFormed(s, base, acts[..|acts| - 1]); }
  }

  /** Between two drains the queue is the coalesced log of the producer calls, whatever the
      registry's other users do, and what is held is theirs and the queue's. */
  lemma {:induction false} QueueIsCoalescedLog(reg: R.Registry, acts: seq<Act>)
    requires R.Valid(reg) && AllowedAll(State([], reg), reg.live, acts)
    ensures Pending(PerformAll(State([], reg), acts)) == Coalesce(Produced(acts))
    ensures Owned(PerformAll(State([], reg), acts), BaseAfterAll(State([], reg), reg.live, acts))
  {
    assert Owned(State([], reg), reg.live);
    PerformAllCorrect(State([], reg), reg.live, acts);
    ProducedWellFormed(State([], reg), reg.live, acts);
    PushAllIsCoalesce(Produced(acts));
  }

  // --- what a drain means ---

  predicate WellFormedScript(script: seq<seq<Op>>) {
    forall i | 0 <= i < |script| :: WellFormedLog(script[i])
  }

  /** A drain on messages: p is pending, its first n messages are what the drain has
      still to dispatch, and script[i] is what the handler of the first one does. Its
      calls act while the dispatched message is still in its place. Gives what is
      pending afterwards and what is delivered. */
  function Deliver(p: seq<Msg>, n: nat, i: nat, script: seq<seq<Op>>): (seq<Msg>, seq<Msg>)
    requires n <= |p|
    decreases n
  {
    if n == 0 then (p, [])
    else if p[0].signal < SIG_COUNT then
      var r := Deliver(PushAll(p, Handler(script, i))[1..], n - 1, i + 1, script);
      (r.0, [p[0]] + r.1)
    else Deliver(p[1..], n - 1, i + 1, script)
  }

  /** Producers call as they do, in every handler. */
  predicate CallsWellFormed(script: seq<seq<Act>>) {
    forall i, k | 0 <= i < |script| && 0 <= k < |script[i]| && script[i][k].Produce? :: WellFormed(script[i][k].op)
  }

  /** The producer calls of each handler. */
  function Calls(script: seq<seq<Act>>): seq<seq<Op>> {
    seq(|script|, i requires 0 <= i < |script| => Produced(script[i]))
  }

  /** The messages of a snapshot that have a signal name. */
  function Deliverable(c: seq<Msg>): seq<Msg> {
    if c == [] then [] else (if c[0].signal < SIG_COUNT then [c[0]] else []) + Deliverable(c[1..])
  }

  // --- the drain over slots and references does that ---

  /** A held object reference is the receiver of the event that holds it. */
  lemma HeldByReceiver(e: Event, live: map<int, R.Value>, ref: int)
    requires GoodEvent(e, live) && ref in Refs(e) && ref in live && live[ref].Object?
    ensures e.objectRef == ref
  {
  }

  /** Where no pending event is of o, only others can hold o. */
  lemma OthersHold(q: seq<Event>, live: map<int, R.Value>, base: map<int, R.Value>, o: nat, ref: int)
    requires OwnedIn(q, live, base)
    requires forall i | 0 <= i < |q| :: HeldObject(live, q[i].objectRef) != o
    ensures HeldObject(live, ref) == o <==> HeldObject(base, ref) == o
  {
    if ref in live && live[ref].Object? && ref !in base {
      assert HeldBySome(q, ref);
      var p :| 0 <= p < |q| && ref in Refs(q[p]);
      HeldByReceiver(q[p], live, ref);
    }
  }

  lemma {:induction false} SameScan(a: seq<Event>, live: map<int, R.Value>, base: map<int, R.Value>, o: nat)
    requires forall i | 0 <= i < |a| :: HeldObject(live, a[i].objectRef) == o <==> HeldObject(base, a[i].objectRef) == o
    ensures FindSame(a, live, o) == FindSame(a, base, o)
    decreases |a|
  {
    if a != [] { SameScan(a[..|a| - 1], live, base, o); }
  }

  /** The scan that gets past the pending events goes on over slots a that were dispatched
      and released. The integers they still name may be in use again: it ends in one of
      them exactly when another user of the registry holds o under its integer. */
  lemma ScanPassesReleased(a: seq<Event>, q: seq<Event>, live: map<int, R.Value>, base: map<int, R.Value>, o: nat)
    requires OwnedIn(q, live, base)
    requires forall i | 0 <= i < |q| :: q[i].signal == SIG_MOUSE_MOVE && HeldObject(live, q[i].objectRef) != o
    ensures FindSame(a, live, o) == FindSame(a, base, o)
  {
    forall i | 0 <= i < |a| ensures HeldObject(live, a[i].objectRef) == o <==> HeldObject(base, a[i].objectRef) == o {
      OthersHold(q, live, base, o, a[i].objectRef);
    }
    SameScan(a, live, base, o);
  }

  /** The scan of a + q, when it does not end in q, goes on in a only if q holds moves alone. */
  lemma {:induction false} FindSameAfter(a: seq<Event>, q: seq<Event>, live: map<int, R.Value>, o: int)
    ensures FindSame(a + q, live, o) ==
            if FindSame(q, live, o) >= 0 then |a| + FindSame(q, live, o)
            else if forall i | 0 <= i < |q| :: q[i].signal == SIG_MOUSE_MOVE then FindSame(a, live, o)
            else -1
    decreases |q|
  {
    if q == [] {
      assert a + q == a;
    } else {
      var n := |q| - 1;
      assert (a + q)[..|a + q| - 1] == a + q[..n];
      assert (a + q)[|a + q| - 1] == q[n];
      FindSameAfter(a, q[..n], live, o);
      assert (forall i | 0 <= i < |q| :: q[i].signal == SIG_MOUSE_MOVE) <==>
             q[n].signal == SIG_MOUSE_MOVE && forall i | 0 <= i < n :: q[..n][i].signal == SIG_MOUSE_MOVE;
    }
  }

  lemma {:induction false} MissedMovesAreOfOthers(q: seq<Event>, live: map<int, R.Value>, o: int)
    requires FindSame(q, live, o) < 0 && forall i | 0 <= i < |q| :: q[i].signal == SIG_MOUSE_MOVE
    ensures forall i | 0 <= i < |q| :: HeldObject(live, q[i].objectRef) != o
    decreases |q|
  {
    if q != [] {
      var n := |q| - 1;
      MissedMovesAreOfOthers(q[..n], live, o);
      forall i | 0 <= i < |q| ensures HeldObject(live, q[i].objectRef) != o {
        if i < n { assert q[i] == q[..n][i]; }
      }
    }
  }

  predicate AllMoves(q: seq<Event>) {
    forall i | 0 <= i < |q| :: q[i].signal == SIG_MOUSE_MOVE
  }

  /** A move of o would fold into one of the released slots a: the scan gets past the
      pending events, and another user of the registry holds o under a slot's integer. */
  predicate Claimed(a: seq<Event>, t: State, base: map<int, R.Value>, o: nat) {
    AllMoves(t.q) && FindSame(t.q, t.reg.live, o) < 0 && FindSame(a, base, o) >= 0
  }

  lemma {:induction false} FindSameBehind(a: seq<Event>, t: State, base: map<int, R.Value>, o: nat)
    requires Owned(t, base)
    ensures var j := FindSame(t.q, t.reg.live, o);
            FindSame(a + t.q, t.reg.live, o)
            == if j >= 0 then |a| + j else if Claimed(a, t, base, o) then FindSame(a, base, o) else -1
  {
    FindSameAfter(a, t.q, t.reg.live, o);
    if FindSame(t.q, t.reg.live, o) < 0 && AllMoves(t.q) {
      MissedMovesAreOfOthers(t.q, t.reg.live, o);
      ScanPassesReleased(a, t.q, t.reg.live, base, o);
    }
  }

  lemma {:induction false} MoveBehind(a: seq<Event>, t: State, o: nat, x: int, y: int)
    requires var j := FindSame(t.q, t.reg.live, o);
             FindSame(a + t.q, t.reg.live, o) == if j >= 0 then |a| + j else -1
    ensures var u := Enqueue(t, Move(o, x, y));
            Enqueue(State(a + t.q, t.reg), Move(o, x, y)) == State(a + u.q, u.reg)
  {
    var j := FindSame(t.q, t.reg.live, o);
    if j >= 0 {
      assert (a + t.q)[|a| + j] == t.q[j];
      var e := Enqueue(t, Move(o, x, y)).q[j];
      assert (a + t.q)[|a| + j := e] == a + t.q[j := e];
    } else {
      var m := MoveMsg(o, x, y);
      AppendBehind(a, t, m);
    }
  }

  lemma AppendBehind(a: seq<Event>, t: State, m: Msg)
    ensures Append(State(a + t.q, t.reg), m) == State(a + Append(t, m).q, Append(t, m).reg)
  {
    var e := Append(t, m).q[|t.q|];
    assert a + t.q + [e] == a + (t.q + [e]);
  }

  /** Behind released slots a call does what it does without them if and only if it does
      not fold into one of them. */
  lemma EnqueueBehind(a: seq<Event>, t: State, base: map<int, R.Value>, op: Op)
    requires Owned(t, base)
    ensures Enqueue(State(a + t.q, t.reg), op) == State(a + Enqueue(t, op).q, Enqueue(t, op).reg)
       <==> !(op.Move? && Claimed(a, t, base, op.obj))
  {
    match op
    case Emit(m) => AppendBehind(a, t, m);
    case Move(o, x, y) =>
      FindSameBehind(a, t, base, o);
      if Claimed(a, t, base, o) {
        assert |Enqueue(State(a + t.q, t.reg), op).q| == |a| + |t.q|;
        assert |Enqueue(t, op).q| == |t.q| + 1;
      } else {
        MoveBehind(a, t, o, x, y);
      }
  }

  /** The act is allowed, and no fold into a released slot. */
  predicate Fits(a: seq<Event>, t: State, base: map<int, R.Value>, act: Act) {
    Allowed(base, act) && (act.Produce? && act.op.Move? ==> !Claimed(a, t, base, act.op.obj))
  }

  predicate FitsAll(a: seq<Event>, t: State, base: map<int, R.Value>, acts: seq<Act>) {
    acts != [] ==>
      var init := acts[..|acts| - 1];
      FitsAll(a, t, base, init) && Fits(a, PerformAll(t, init), BaseAfterAll(t, base, init), acts[|acts| - 1])
  }

  lemma {:induction false} FitsAreAllowed(a: seq<Event>, t: State, base: map<int, R.Value>, acts: seq<Act>)
    requires FitsAll(a, t, base, acts)
    ensures AllowedAll(t, base, acts)
    decreases |acts|
  {
    if acts != [] { FitsAreAllowed(a, t, base, acts[..|acts| - 1]); }
  }

  lemma PerformBehind(a: seq<Event>, t: State, base: map<int, R.Value>, act: Act)
    requires Owned(t, base) && Fits(a, t, base, act)
    ensures Perform(State(a + t.q, t.reg), act) == State(a + Perform(t, act).q, Perform(t, act).reg)
  {
    if act.Produce? { EnqueueBehind(a, t, base, act.op); }
  }

  lemma {:induction false} PerformAllBehind(a: seq<Event>, t: State, base: map<int, R.Value>, acts: seq<Act>)
    requires Owned(t, base) && FitsAll(a, t, base, acts)
    ensures PerformAll(State(a + t.q, t.reg), acts) == State(a + PerformAll(t, acts).q, PerformAll(t, acts).reg)
    decreases |acts|
  {
    if acts != [] {
      var init := acts[..|acts| - 1];
      PerformAllBehind(a, t, base, init);
      FitsAreAllowed(a, t, base, init);
      PerformAllCorrect(t, base, init);
      PerformBehind(a, PerformAll(t, init), BaseAfterAll(t, base, init), acts[|acts| - 1]);
    }
  }

  /** A call leaves every slot in place: a fold takes the released integer back, so
      the copy that a drain took of the slot still names what the slot holds. */
  lemma EnqueueKeepsSlots(s: State, base: map<int, R.Value>, op: Op)
    requires Owned(s, base)
    ensures Enqueue(s, op).q[..|s.q|] == s.q
  {
    if op.Move? && FindSame(s.q, s.reg.live, op.obj) >= 0 {
      FoldTakesBack(s, base, op.obj, op.x, op.y);
    }
  }

  lemma {:induction false} PerformAllKeepsSlots(s: State, base: map<int, R.Value>, acts: seq<Act>)
    requires Owned(s, base) && AllowedAll(s, base, acts)
    ensures PerformAll(s, acts).q[..|s.q|] == s.q
    decreases |acts|
  {
    if acts == [] {
      assert s.q[..|s.q|] == s.q;
    } else {
      var init, last := acts[..|acts| - 1], acts[|acts| - 1];
      var t := PerformAll(s, init);
      PerformAllKeepsSlots(s, base, init);
      PerformAllCorrect(s, base, init);
      if last.Produce? { EnqueueKeepsSlots(t, BaseAfterAll(s, base, init), last.op); }
      assert PerformAll(s, acts).q[..|t.q|] == t.q;
      assert PerformAll(s, acts).q[..|t.q|][..|s.q|] == PerformAll(s, acts).q[..|s.q|];
    }
  }

  function WithoutRefs(live: map<int, R.Value>, e: Event): map<int, R.Value> {
    live - Refs(e)
  }

  lemma OwnedTail(q: seq<Event>, live: map<int, R.Value>, base: map<int, R.Value>)
    requires q != [] && OwnedIn(q, live, base)
    ensures OwnedIn(q[1..], WithoutRefs(live, q[0]), base)
    ensures DecodeAll(q[1..], WithoutRefs(live, q[0])) == DecodeAll(q, live)[1..]
  {
    var l, r := WithoutRefs(live, q[0]), q[1..];
    assert Refs(q[0]) !! base.Keys;
    forall i | 0 <= i < |r|
      ensures GoodEvent(r[i], l) && Refs(r[i]) !! base.Keys && Decode(r[i], l) == Decode(q[i + 1], live)
    {
      assert r[i] == q[i + 1];
      assert Refs(q[0]) !! Refs(q[i + 1]);
      EventAway(q[i + 1], live, Refs(q[0]));
    }
    TailHeld(q, live.Keys, base);
    assert l.Keys == live.Keys - Refs(q[0]);
  }

  lemma TailHeld(q: seq<Event>, held: set<int>, base: map<int, R.Value>)
    requires q != [] && Apart(q) && EachHeld(q, held, base)
    ensures Apart(q[1..]) && EachHeld(q[1..], held - Refs(q[0]), base)
  {
    forall k | k in held - Refs(q[0]) && k !in base ensures HeldBySome(q[1..], k) {
      var i :| 0 <= i < |q| && k in Refs(q[i]);
      assert q[1..][i - 1] == q[i];
    }
  }

  /** A dispatched slot goes with its references, and the rest stays as it was. */
  lemma ReleaseFirst(q: seq<Event>, reg: R.Registry, base: map<int, R.Value>)
    requires q != [] && Owned(State(q, reg), base)
    ensures Owned(State(q[1..], Release(reg, q[0])), base)
    ensures Pending(State(q[1..], Release(reg, q[0]))) == Pending(State(q, reg))[1..]
  {
    ReleaseGood(reg, q[0]);
    OwnedTail(q, reg.live, base);
  }

  /** Releasing a good event takes its references, each once, and no other. */
  lemma ReleaseGood(reg: R.Registry, e: Event)
    requires R.Valid(reg) && GoodEvent(e, reg.live)
    ensures R.Valid(Release(reg, e)) && Release(reg, e).live == WithoutRefs(reg.live, e)
  {
    var o := R.Unref(reg, e.objectRef);
    assert R.Valid(o) && o.live == reg.live - ({e.objectRef} - {R.NOREF});
    assert e.argsRef == R.NOREF || e.argsRef in o.live;
    assert Release(reg, e).live == o.live - ({e.argsRef} - {R.NOREF});
  }

  lemma HandlerKeepsFront(a: seq<Event>, t: State, base: map<int, R.Value>, run: seq<Act>)
    returns (u: State)
    requires t.q != [] && Owned(t, base) && FitsAll(a, t, base, run)
    ensures u == PerformAll(t, run) && PerformAll(State(a + t.q, t.reg), run) == State(a + u.q, u.reg)
    ensures Owned(u, BaseAfterAll(t, base, run)) && Pending(u) == PushAll(Pending(t), Produced(run))
    ensures u.q != [] && u.q[0] == t.q[0]
  {
    PerformAllBehind(a, t, base, run);
    FitsAreAllowed(a, t, base, run);
    PerformAllCorrect(t, base, run);
    PerformAllKeepsSlots(t, base, run);
    u := PerformAll(t, run);
    assert u.q[0] == u.q[..|t.q|][0];
  }

  /** What is left behind the front slot when its handler has run and it is released. */
  function Rest(t: State, run: seq<Act>): State
    requires t.q != []
  {
    var u := PerformAll(t, run);
    State(u.q[1..], Release(u.reg, t.q[0]))
  }

  /** One slot of a drain, with the slots a released before it: what happens while its
      handler runs, whatever it folds into, and then the release of the copy's references. */
  lemma DrainSlot(a: seq<Event>, t: State, base: map<int, R.Value>, run: seq<Act>)
    requires t.q != [] && Owned(t, base) && FitsAll(a, t, base, run)
    ensures var s := PerformAll(State(a + t.q, t.reg), run); var v := Rest(t, run);
            s.(reg := Release(s.reg, t.q[0])) == State(a + [t.q[0]] + v.q, v.reg)
    ensures Owned(Rest(t, run), BaseAfterAll(t, base, run))
    ensures Pending(Rest(t, run)) == PushAll(Pending(t), Produced(run))[1..]
  {
    var u := HandlerKeepsFront(a, t, base, run);
    ReleaseFirst(u.q, u.reg, BaseAfterAll(t, base, run));
    FrontRegrouped(a, u.q);
  }

  lemma FrontRegrouped(a: seq<Event>, q: seq<Event>)
    requires q != []
    ensures a + q == a + [q[0]] + q[1..]
  {
  }

  lemma DrainStep(s: State, i: nat, count: nat, script: seq<seq<Act>>, u: State)
    requires i < count <= |s.q|
    requires u == PerformAll(s, if Dispatchable(s.q[i]) then Handler(script, i) else [])
    ensures var e := s.q[i]; var r := DrainFrom(u.(reg := Release(u.reg, e)), i + 1, count, script);
            DrainFrom(s, i, count, script) ==
              (r.0, (if Dispatchable(e) then [Decode(e, s.reg.live)] else []) + r.1)
  {
    var e := s.q[i];
    if !Dispatchable(e) {
      assert u == s;
      var r := DrainFrom(s.(reg := Release(s.reg, e)), i + 1, count, script);
      assert [] + r.1 == r.1;
    }
  }

  lemma DeliverStep(p: seq<Msg>, n: nat, i: nat, script: seq<seq<Op>>, run: seq<Op>)
    requires 0 < n <= |p| && run == if p[0].signal < SIG_COUNT then Handler(script, i) else []
    ensures var m := Deliver(PushAll(p, run)[1..], n - 1, i + 1, script);
            Deliver(p, n, i, script) == (m.0, Deliverable([p[0]]) + m.1)
  {
    DeliverableOne(p[0]);
    if p[0].signal >= SIG_COUNT {
      assert PushAll(p, run) == p;
      var m := Deliver(p[1..], n - 1, i + 1, script);
      assert [] + m.1 == m.1;
    }
  }

  lemma FrontReads(t: State, base: map<int, R.Value>)
    requires t.q != [] && Owned(t, base)
    ensures Pending(t)[0] == Decode(t.q[0], t.reg.live)
    ensures Deliverable([Pending(t)[0]]) == if Dispatchable(t.q[0]) then [Pending(t)[0]] else []
    ensures Dispatchable(t.q[0]) <==> Pending(t)[0].signal < SIG_COUNT
  {
    assert GoodEvent(t.q[0], t.reg.live);
    DeliverableOne(Pending(t)[0]);
  }

  /** What happens while the front of t, slot i of the drain, is dealt with. */
  function FrontRun(t: State, i: nat, script: seq<seq<Act>>): seq<Act>
    requires t.q != []
  {
    if Dispatchable(t.q[0]) then Handler(script, i) else []
  }

  /** During the next n slots of the drain, behind the released slots a, everything fits. */
  predicate FitsDrain(a: seq<Event>, t: State, base: map<int, R.Value>, n: nat, script: seq<seq<Act>>)
    requires n <= |t.q|
    decreases n
  {
    n > 0 ==>
      var run := FrontRun(t, |a|, script);
      && FitsAll(a, t, base, run)
      && FitsDrain(a + [t.q[0]], Rest(t, run), BaseAfterAll(t, base, run), n - 1, script)
  }

  /** What others hold after the next n slots, the first of them slot i of the drain. */
  function BaseAfterDrain(t: State, base: map<int, R.Value>, n: nat, i: nat, script: seq<seq<Act>>): map<int, R.Value>
    requires n <= |t.q|
    decreases n
  {
    if n == 0 then base
    else
      var run := FrontRun(t, i, script);
      BaseAfterDrain(Rest(t, run), BaseAfterAll(t, base, run), n - 1, i + 1, script)
  }

  /** One slot of the drain, from what its handler leaves. */
  lemma DrainsOn(a: seq<Event>, t: State, n: nat, script: seq<seq<Act>>)
    requires t.q != [] && 0 < n <= |t.q|
    requires var run := FrontRun(t, |a|, script);
             var s := PerformAll(State(a + t.q, t.reg), run); var v := Rest(t, run);
             s.(reg := Release(s.reg, t.q[0])) == State(a + [t.q[0]] + v.q, v.reg)
    ensures var a', v := a + [t.q[0]], Rest(t, FrontRun(t, |a|, script));
            var r := DrainFrom(State(a' + v.q, v.reg), |a'|, |a'| + (n - 1), script);
            DrainFrom(State(a + t.q, t.reg), |a|, |a| + n, script)
            == (r.0, (if Dispatchable(t.q[0]) then [Decode(t.q[0], t.reg.live)] else []) + r.1)
  {
    var s, a' := State(a + t.q, t.reg), a + [t.q[0]];
    assert s.q[|a|] == t.q[0];
    assert |a'| == |a| + 1 && |a'| + (n - 1) == |a| + n;
    DrainStep(s, |a|, |a| + n, script, PerformAll(s, FrontRun(t, |a|, script)));
  }

  lemma FrontIsDrained(a: seq<Event>, t: State, n: nat, base: map<int, R.Value>, script: seq<seq<Act>>)
    requires t.q != [] && Owned(t, base) && 0 < n <= |t.q| && FitsDrain(a, t, base, n, script)
    ensures var run := FrontRun(t, |a|, script); var v := Rest(t, run);
            && Owned(v, BaseAfterAll(t, base, run)) && Pending(v) == PushAll(Pending(t), Produced(run))[1..]
            && Produced(run) == if Pending(t)[0].signal < SIG_COUNT then Handler(Calls(script), |a|) else []
    ensures var a', v := a + [t.q[0]], Rest(t, FrontRun(t, |a|, script));
            var r := DrainFrom(State(a' + v.q, v.reg), |a'|, |a'| + (n - 1), script);
            DrainFrom(State(a + t.q, t.reg), |a|, |a| + n, script) == (r.0, Deliverable([Pending(t)[0]]) + r.1)
  {
    FrontReads(t, base);
    DrainSlot(a, t, base, FrontRun(t, |a|, script));
    DrainsOn(a, t, n, script);
  }

  lemma DeliverableOne(m: Msg)
    ensures Deliverable([m]) == if m.signal < SIG_COUNT then [m] else []
  {
    assert [m][1..] == [] && Deliverable([]) == [];
  }

  /** What a drain of n slots behind a leaves and delivers is what it does on messages. */
  ghost predicate Refines(a: seq<Event>, t: State, n: nat, base: map<int, R.Value>, script: seq<seq<Act>>)
    requires n <= |t.q|
  {
    var r := DrainFrom(State(a + t.q, t.reg), |a|, |a| + n, script);
    var m := Deliver(Pending(t), n, |a|, Calls(script));
    Owned(r.0, BaseAfterDrain(t, base, n, |a|, script)) && Pending(r.0) == m.0 && r.1 == m.1
  }

  lemma NothingToDrain(a: seq<Event>, t: State, base: map<int, R.Value>, script: seq<seq<Act>>)
    requires Owned(t, base)
    ensures Refines(a, t, 0, base, script)
  {
    assert (a + t.q)[|a|..] == t.q;
  }

  /** The same slot on messages, and what it leaves others. */
  lemma DeliversOn(a: seq<Event>, t: State, n: nat, base: map<int, R.Value>, script: seq<seq<Act>>)
    requires t.q != [] && 0 < n <= |t.q|
    requires var run := FrontRun(t, |a|, script);
             && Pending(Rest(t, run)) == PushAll(Pending(t), Produced(run))[1..]
             && Produced(run) == if Pending(t)[0].signal < SIG_COUNT then Handler(Calls(script), |a|) else []
    ensures var a', run := a + [t.q[0]], FrontRun(t, |a|, script); var v, b := Rest(t, run), BaseAfterAll(t, base, run);
            |v.q| >= n - 1 && BaseAfterDrain(t, base, n, |a|, script) == BaseAfterDrain(v, b, n - 1, |a'|, script)
    ensures var a', v := a + [t.q[0]], Rest(t, FrontRun(t, |a|, script));
            var m := Deliver(Pending(v), n - 1, |a'|, Calls(script));
            Deliver(Pending(t), n, |a|, Calls(script)) == (m.0, Deliverable([Pending(t)[0]]) + m.1)
  {
    assert |a + [t.q[0]]| == |a| + 1;
    DeliverStep(Pending(t), n, |a|, Calls(script), Produced(FrontRun(t, |a|, script)));
  }

  /** The drain of t behind a is one slot's message, and the drain of v behind a'. */
  ghost predicate Continues(a: seq<Event>, a': seq<Event>, t: State, v: State, n: nat,
                            base: map<int, R.Value>, b: map<int, R.Value>, script: seq<seq<Act>>) {
    && 0 < n <= |t.q| && n - 1 <= |v.q|
    && BaseAfterDrain(t, base, n, |a|, script) == BaseAfterDrain(v, b, n - 1, |a'|, script)
    && (var r := DrainFrom(State(a' + v.q, v.reg), |a'|, |a'| + (n - 1), script);
        DrainFrom(State(a + t.q, t.reg), |a|, |a| + n, script) == (r.0, Deliverable([Pending(t)[0]]) + r.1))
    && (var m := Deliver(Pending(v), n - 1, |a'|, Calls(script));
        Deliver(Pending(t), n, |a|, Calls(script)) == (m.0, Deliverable([Pending(t)[0]]) + m.1))
  }

  lemma FrontContinues(a: seq<Event>, t: State, n: nat, base: map<int, R.Value>, script: seq<seq<Act>>)
    requires t.q != [] && Owned(t, base) && 0 < n <= |t.q| && FitsDrain(a, t, base, n, script)
    ensures var run := FrontRun(t, |a|, script);
            Continues(a, a + [t.q[0]], t, Rest(t, run), n, base, BaseAfterAll(t, base, run), script)
  {
    FrontIsDrained(a, t, n, base, script);
    DeliversOn(a, t, n, base, script);
  }

  /** What one slot leaves: v behind it, and b with others. */
  lemma DrainOneSlot(a: seq<Event>, t: State, n: nat, base: map<int, R.Value>, script: seq<seq<Act>>)
    returns (a': seq<Event>, v: State, b: map<int, R.Value>)
    requires t.q != [] && Owned(t, base) && 0 < n <= |t.q| && FitsDrain(a, t, base, n, script)
    ensures Continues(a, a', t, v, n, base, b, script) && Owned(v, b) && FitsDrain(a', v, b, n - 1, script)
  {
    var run := FrontRun(t, |a|, script);
    a', v, b := a + [t.q[0]], Rest(t, run), BaseAfterAll(t, base, run);
    FrontContinues(a, t, n, base, script);
    DrainSlot(a, t, base, run);
  }

  lemma SlotBefore(a: seq<Event>, a': seq<Event>, t: State, v: State, n: nat,
                   base: map<int, R.Value>, b: map<int, R.Value>, script: seq<seq<Act>>)
    requires Continues(a, a', t, v, n, base, b, script) && Refines(a', v, n - 1, b, script)
    ensures Refines(a, t, n, base, script)
  {
  }

  /** From any slot on, whatever the handlers do: the drain delivers and leaves what
      it does on messages, and references stay exactly owned. */
  lemma {:induction false} DrainFromCorrect(a: seq<Event>, t: State, n: nat, base: map<int, R.Value>,
                                            script: seq<seq<Act>>)
    requires Owned(t, base) && n <= |t.q| && FitsDrain(a, t, base, n, script)
    ensures Refines(a, t, n, base, script)
    decreases n
  {
    if n == 0 {
      NothingToDrain(a, t, base, script);
    } else {
      var a', v, b := DrainOneSlot(a, t, n, base, script);
      DrainFromCorrect(a', v, n - 1, b, script);
      SlotBefore(a, a', t, v, n, base, b, script);
    }
  }

  /** Every drain in which no move folds into a released slot is the drain on messages, and
      what is held after it is what others hold and what the queue holds. */
  lemma {:induction false} DrainIsDeliver(s: State, base: map<int, R.Value>, script: seq<seq<Act>>)
    requires Owned(s, base) && FitsDrain([], s, base, |s.q|, script)
    ensures Drain(s, script).1 == Deliver(Pending(s), |s.q|, 0, Calls(script)).1
    ensures Pending(Drain(s, script).0) == Deliver(Pending(s), |s.q|, 0, Calls(script)).0
    ensures Owned(Drain(s, script).0, BaseAfterDrain(s, base, |s.q|, 0, script))
  {
    assert [] + s.q == s.q && State([] + s.q, s.reg) == s;
    DrainFromCorrect([], s, |s.q|, base, script);
    assert Refines([], s, |s.q|, base, script);
  }

  // --- when no move folds into a released slot ---

  /** The integers of released slots are not held by others. */
  predicate Released(a: seq<Event>, base: map<int, R.Value>) {
    forall i | 0 <= i < |a| :: a[i].objectRef !in base
  }

  lemma {:induction false} ReleasedIsUnclaimed(a: seq<Event>, base: map<int, R.Value>, o: nat)
    requires Released(a, base)
    ensures FindSame(a, base, o) == -1
    decreases |a|
  {
    if a != [] { ReleasedIsUnclaimed(a[..|a| - 1], base, o); }
  }

  predicate TakesNone(acts: seq<Act>) {
    forall i | 0 <= i < |acts| :: !acts[i].Hold?
  }

  /** Acts that take no reference for others leave them with a part of what they held. */
  lemma {:induction false} TakesNoneFits(a: seq<Event>, t: State, base: map<int, R.Value>, acts: seq<Act>)
    requires Released(a, base) && TakesNone(acts) && AllowedAll(t, base, acts)
    ensures FitsAll(a, t, base, acts) && BaseAfterAll(t, base, acts).Keys <= base.Keys
    decreases |acts|
  {
    if acts != [] {
      var init, last := acts[..|acts| - 1], acts[|acts| - 1];
      TakesNoneFits(a, t, base, init);
      var b := BaseAfterAll(t, base, init);
      if last.Produce? && last.op.Move? {
        forall i | 0 <= i < |a| ensures a[i].objectRef !in b { assert a[i].objectRef !in base; }
        ReleasedIsUnclaimed(a, b, last.op.obj);
      }
    }
  }

  /** Everything that happens during the drain is allowed. */
  predicate AllowedDrain(t: State, base: map<int, R.Value>, n: nat, i: nat, script: seq<seq<Act>>)
    requires n <= |t.q|
    decreases n
  {
    n > 0 ==>
      var run := FrontRun(t, i, script);
      AllowedAll(t, base, run) && AllowedDrain(Rest(t, run), BaseAfterAll(t, base, run), n - 1, i + 1, script)
  }

  /** A drain during which others take no references meets the condition, whatever its
      handlers queue and whatever others give back. */
  lemma {:induction false} TakingNoneFits(a: seq<Event>, t: State, base: map<int, R.Value>, n: nat,
                                          script: seq<seq<Act>>)
    requires Owned(t, base) && Released(a, base) && n <= |t.q| && AllowedDrain(t, base, n, |a|, script)
    requires forall i | 0 <= i < |script| :: TakesNone(script[i])
    ensures FitsDrain(a, t, base, n, script)
    decreases n
  {
    if n > 0 {
      var a', v, b := TakingNoneSlot(a, t, base, n, script);
      TakingNoneFits(a', v, b, n - 1, script);
    }
  }

  lemma TakingNoneSlot(a: seq<Event>, t: State, base: map<int, R.Value>, n: nat, script: seq<seq<Act>>)
    returns (a': seq<Event>, v: State, b: map<int, R.Value>)
    requires Owned(t, base) && Released(a, base) && 0 < n <= |t.q| && AllowedDrain(t, base, n, |a|, script)
    requires forall i | 0 <= i < |script| :: TakesNone(script[i])
    ensures Owned(v, b) && Released(a', b) && n - 1 <= |v.q| && AllowedDrain(v, b, n - 1, |a'|, script)
    ensures FitsDrain(a', v, b, n - 1, script) ==> FitsDrain(a, t, base, n, script)
  {
    var run := FrontRun(t, |a|, script);
    a', v, b := a + [t.q[0]], Rest(t, run), BaseAfterAll(t, base, run);
    assert |a'| == |a| + 1;
    TakesNoneFits(a, t, base, run);
    DrainSlot(a, t, base, run);
    FrontIsReleased(a, t, base, b);
  }

  lemma FrontIsReleased(a: seq<Event>, t: State, base: map<int, R.Value>, b: map<int, R.Value>)
    requires t.q != [] && Owned(t, base) && Released(a, base) && b.Keys <= base.Keys
    ensures Released(a + [t.q[0]], b)
  {
    var a' := a + [t.q[0]];
    assert Refs(t.q[0]) !! base.Keys && R.NOREF !in base;
    assert t.q[0].objectRef !in base;
    forall i | 0 <= i < |a'| ensures a'[i].objectRef !in b { assert a'[i].objectRef !in base; }
  }

  // --- when one does ---

  const Slot7 := Event(ObjectEvent, SIG_MOUSE_MOVE, 1, 2, 2, 0)
  const Slot8 := Event(ObjectEvent, SIG_MOUSE_MOVE, 3, 2, 4, 0)
  const Two := State([Slot7, Slot8],
                     R.Registry(map[1 := R.Object(7), 2 := R.Args([1, 1]), 3 := R.Object(8), 4 := R.Args([1, 1])],
                                [], 4, 0))

  /** While the second of two moves is dispatched, others take the two integers of the
      first, one of them for its object, which then moves again. */
  const Claiming := [Hold(R.Object(9)), Hold(R.Object(7)), Produce(Move(7, 5, 5))]

  const OneMove := State([Slot7], R.Registry(map[1 := R.Object(7), 2 := R.Args([1, 1])], [], 2, 0))

  lemma TwoMovesQueued()
    ensures Two == PerformAll(State([], R.Registry(map[], [], 0, 0)), [Produce(Move(7, 1, 1)), Produce(Move(8, 1, 1))])
  {
    FirstQueued();
    SecondQueued();
    ThreeActs(State([], R.Registry(map[], [], 0, 0)), Produce(Move(7, 1, 1)), Produce(Move(8, 1, 1)), GiveBack(0));
  }

  lemma FirstQueued()
    ensures Enqueue(State([], R.Registry(map[], [], 0, 0)), Move(7, 1, 1)) == OneMove
  {
    var s := State([], R.Registry(map[], [], 0, 0));
    assert FindSame([], map[], 7) == -1;
    assert Append(s, MoveMsg(7, 1, 1)).reg.live == map[1 := R.Object(7), 2 := R.Args([1, 1])];
  }

  lemma SecondQueued()
    ensures Enqueue(OneMove, Move(8, 1, 1)) == Two
  {
    assert [Slot7][..0] == [] && FindSame([], OneMove.reg.live, 8) == -1;
    assert FindSame([Slot7], OneMove.reg.live, 8) == -1;
    assert Append(OneMove, MoveMsg(8, 1, 1)).reg.live == Two.reg.live;
    assert Append(OneMove, MoveMsg(8, 1, 1)).q == [Slot7] + [Slot8];
  }

  /** The released slot takes the fold: the move is neither delivered nor kept, and the
      integer that someone else took for object 9 names the move's coordinates. */
  lemma FoldIntoAReleasedSlot()
    ensures var r := Drain(Two, [[], Claiming]);
            && r == (State([], R.Registry(map[1 := R.Object(7), 2 := R.Args([5, 5])], [4, 3], 4, 0)),
                     [MoveMsg(7, 1, 1), MoveMsg(8, 1, 1)])
            && BaseAfterDrain(Two, map[], 2, 0, [[], Claiming]) == map[1 := R.Object(7), 2 := R.Object(9)]
  {
    var script := [[], Claiming];
    var s1 := State(Two.q, R.Registry(map[3 := R.Object(8), 4 := R.Args([1, 1])], [2, 1], 4, 0));
    FirstOfTwo(s1, script);
    SecondOfTwo(s1, script);
    var t := State([Slot8], s1.reg);
    ClaimedBase(t, script);
    assert Two.q[1..] == [Slot8] && Rest(Two, []) == t;
    assert BaseAfterDrain(Two, map[], 2, 0, script) == BaseAfterDrain(t, map[], 1, 1, script);
    assert [MoveMsg(7, 1, 1)] + [MoveMsg(8, 1, 1)] == [MoveMsg(7, 1, 1), MoveMsg(8, 1, 1)];
  }

  lemma ThreeActs(s: State, a: Act, b: Act, c: Act)
    ensures PerformAll(s, [a, b, c]) == Perform(Perform(Perform(s, a), b), c)
    ensures PerformAll(s, [a, b]) == Perform(Perform(s, a), b) && PerformAll(s, [a]) == Perform(s, a)
  {
    assert [a, b, c][..2] == [a, b] && [a, b][..1] == [a] && [a][..0] == [];
    assert PerformAll(s, [a]) == Perform(PerformAll(s, []), a);
    assert PerformAll(s, [a, b]) == Perform(PerformAll(s, [a]), b);
  }

  const Claimed2 := map[3 := R.Object(8), 4 := R.Args([1, 1]), 2 := R.Object(9), 1 := R.Object(7)]

  lemma ClaimingActs(s1: State)
    requires s1 == State(Two.q, R.Registry(map[3 := R.Object(8), 4 := R.Args([1, 1])], [2, 1], 4, 0))
    ensures PerformAll(s1, Claiming) == State(Two.q, R.Registry(Claimed2[2 := R.Args([5, 5])], [], 4, 0))
  {
    var s3 := State(Two.q, R.Registry(Claimed2, [], 4, 0));
    assert Perform(Perform(s1, Claiming[0]), Claiming[1]) == s3;
    ClaimedMove(s3);
    ThreeActs(s1, Claiming[0], Claiming[1], Claiming[2]);
  }

  lemma ClaimedMove(s3: State)
    requires s3 == State(Two.q, R.Registry(Claimed2, [], 4, 0))
    ensures Enqueue(s3, Move(7, 5, 5)) == State(Two.q, R.Registry(Claimed2[2 := R.Args([5, 5])], [], 4, 0))
  {
    ScanOfTwo(Claimed2);
    assert Claimed2 - {2} + map[2 := R.Args([5, 5])] == Claimed2[2 := R.Args([5, 5])];
  }

  const Unclaimed := State(Two.q, R.Registry(map[1 := R.Object(7), 2 := R.Args([5, 5])], [4, 3], 4, 0))

  lemma SecondReleased(s4: State)
    requires s4 == State(Two.q, R.Registry(Claimed2[2 := R.Args([5, 5])], [], 4, 0))
    ensures s4.(reg := Release(s4.reg, Slot8)) == Unclaimed
  {
    assert Claimed2[2 := R.Args([5, 5])] - {3} - {4} == map[1 := R.Object(7), 2 := R.Args([5, 5])];
  }

  lemma SecondOfTwo(s1: State, script: seq<seq<Act>>)
    requires s1 == State(Two.q, R.Registry(map[3 := R.Object(8), 4 := R.Args([1, 1])], [2, 1], 4, 0))
    requires |script| == 2 && script[1] == Claiming
    ensures DrainFrom(s1, 1, 2, script) == (State([], Unclaimed.reg), [MoveMsg(8, 1, 1)])
  {
    ClaimingActs(s1);
    SecondReleased(PerformAll(s1, Claiming));
    assert Unclaimed.q[2..] == [] && DrainFrom(Unclaimed, 2, 2, script) == (State([], Unclaimed.reg), []);
    assert Unpack(s1.reg.live, 4, 2) == [1, 1] && Decode(Slot8, s1.reg.live) == MoveMsg(8, 1, 1);
    DrainStep(s1, 1, 2, script, PerformAll(s1, Claiming));
    assert [MoveMsg(8, 1, 1)] + [] == [MoveMsg(8, 1, 1)];
  }

  lemma ScanOfTwo(held: map<int, R.Value>)
    requires 1 in held && held[1] == R.Object(7) && 3 in held && held[3] == R.Object(8)
    ensures FindSame(Two.q, held, 7) == 0
  {
    assert Two.q[..1] == [Slot7] && [Slot7][..0] == [];
    assert FindSame([Slot7], held, 7) == 0;
  }

  lemma ClaimedBase(t: State, script: seq<seq<Act>>)
    requires t == State([Slot8], R.Registry(map[3 := R.Object(8), 4 := R.Args([1, 1])], [2, 1], 4, 0))
    requires |script| == 2 && script[1] == Claiming
    ensures BaseAfterDrain(t, map[], 1, 1, script) == map[1 := R.Object(7), 2 := R.Object(9)]
  {
    var a, b, c := Claiming[0], Claiming[1], Claiming[2];
    ThreeActs(t, a, b, c);
    assert Claiming[..2] == [a, b] && [a, b][..1] == [a] && [a][..0] == [];
    assert BaseAfterAll(t, map[], [a]) == map[2 := R.Object(9)];
    assert BaseAfterAll(t, map[], [a, b]) == map[2 := R.Object(9), 1 := R.Object(7)];
    assert BaseAfterAll(t, map[], Claiming) == BaseAfterAll(t, map[], [a, b]);
    assert FrontRun(t, 1, script) == Claiming;
  }

  lemma FirstOfTwo(s1: State, script: seq<seq<Act>>)
    requires s1 == State(Two.q, R.Registry(map[3 := R.Object(8), 4 := R.Args([1, 1])], [2, 1], 4, 0))
    requires script != [] && script[0] == []
    ensures Two.(reg := Release(Two.reg, Slot7)) == s1 && Handler(script, 0) == []
    ensures Drain(Two, script) == (DrainFrom(s1, 1, 2, script).0, [MoveMsg(7, 1, 1)] + DrainFrom(s1, 1, 2, script).1)
  {
    assert Unpack(Two.reg.live, 2, 2) == [1, 1];
    assert Two.reg.live - {1} - {2} == s1.reg.live;
    DrainStep(Two, 0, 2, script, Two);
  }

  // --- what becomes of the handlers' calls ---

  /** The call would overwrite one of the first n pending messages. */
  predicate FoldsInto(p: seq<Msg>, op: Op, n: nat) {
    op.Move? && 0 <= FindMove(p, op.obj) < n
  }

  predicate CleanCalls(p: seq<Msg>, n: nat, ops: seq<Op>) {
    ops != [] ==>
      && CleanCalls(p, n, ops[..|ops| - 1])
      && !FoldsInto(PushAll(p, ops[..|ops| - 1]), ops[|ops| - 1], n)
  }

  /** No handler of the drain makes a call that folds into the snapshot. */
  predicate CleanDrain(p: seq<Msg>, n: nat, i: nat, script: seq<seq<Op>>)
    requires n <= |p|
    decreases n
  {
    n > 0 ==>
      var run := if p[0].signal < SIG_COUNT then Handler(script, i) else [];
      CleanCalls(p, n, run) && CleanDrain(PushAll(p, run)[1..], n - 1, i + 1, script)
  }

  /** The calls the handlers of a snapshot make, from slot i on. */
  function HandlerLog(c: seq<Msg>, i: nat, script: seq<seq<Op>>): seq<Op> {
    if c == [] then []
    else (if c[0].signal < SIG_COUNT then Handler(script, i) else []) + HandlerLog(c[1..], i + 1, script)
  }

  /** A call reaches what the next drain finds, as the log semantics says, if and
      only if it does not fold into the snapshot a. */
  lemma CallIsKeptIffItDoesNotFold(a: seq<Msg>, c: seq<Msg>, op: Op)
    ensures Push(a + c, op)[|a|..] == Push(c, op) <==> !FoldsInto(a + c, op, |a|)
    ensures !FoldsInto(a + c, op, |a|) ==> Push(a + c, op) == a + Push(c, op)
  {
    if op.Move? { FindMoveAfter(a, c, op.obj); }
    if FoldsInto(a + c, op, |a|) {
      assert |Push(a + c, op)[|a|..]| == |c| && |Push(c, op)| == |c| + 1;
    } else {
      PushAfter(a, c, op);
    }
  }

  lemma {:induction false} CleanCallsStayBehind(a: seq<Msg>, c: seq<Msg>, ops: seq<Op>)
    requires CleanCalls(a + c, |a|, ops)
    ensures PushAll(a + c, ops) == a + PushAll(c, ops)
    decreases |ops|
  {
    if ops != [] {
      CleanCallsStayBehind(a, c, ops[..|ops| - 1]);
      CallIsKeptIffItDoesNotFold(a, PushAll(c, ops[..|ops| - 1]), ops[|ops| - 1]);
    }
  }

  lemma {:induction false} CleanDeliver(a: seq<Msg>, c: seq<Msg>, i: nat, script: seq<seq<Op>>)
    requires CleanDrain(a + c, |a|, i, script)
    ensures Deliver(a + c, |a|, i, script) == (PushAll(c, HandlerLog(a, i, script)), Deliverable(a))
    decreases |a|
  {
    if a == [] {
      assert a + c == c;
    } else {
      var run := if a[0].signal < SIG_COUNT then Handler(script, i) else [];
      CleanCallsStayBehind(a, c, run);
      var d := PushAll(c, run);
      assert (a + c)[0] == a[0] && (a + d)[1..] == a[1..] + d;
      CleanDeliver(a[1..], d, i + 1, script);
      DeliverStep(a + c, |a|, i, script, run);
      DeliverableOne(a[0]);
      PushAllConcat(c, run, HandlerLog(a[1..], i + 1, script));
    }
  }

  lemma {:induction false} HandlerLogWellFormed(c: seq<Msg>, i: nat, script: seq<seq<Op>>)
    requires WellFormedScript(script)
    ensures WellFormedLog(HandlerLog(c, i, script))
    decreases |c|
  {
    if c != [] { HandlerLogWellFormed(c[1..], i + 1, script); }
  }

  /** When no call folds into the snapshot, the drain delivers exactly the pending
      messages, once each and in order, and what the handlers queued is, coalesced,
      what the next drain finds. */
  lemma {:induction false} DrainDeliversSnapshot(s: State, base: map<int, R.Value>, script: seq<seq<Act>>)
    requires Owned(s, base) && FitsDrain([], s, base, |s.q|, script) && WellFormedScript(Calls(script))
    requires CleanDrain(Pending(s), |s.q|, 0, Calls(script))
    ensures Drain(s, script).1 == Deliverable(Pending(s))
    ensures WellFormedLog(HandlerLog(Pending(s), 0, Calls(script)))
    ensures Pending(Drain(s, script).0) == Coalesce(HandlerLog(Pending(s), 0, Calls(script)))
  {
    var p := Pending(s);
    assert p + [] == p;
    DrainIsDeliver(s, base, script);
    CleanDeliver(p, [], 0, Calls(script));
    HandlerLogWellFormed(p, 0, Calls(script));
    PushAllIsCoalesce(HandlerLog(p, 0, Calls(script)));
  }

  // --- calls that fold into the snapshot ---

  predicate NoMoves(ops: seq<Op>, o: nat) {
    forall i | 0 <= i < |ops| :: ops[i].Move? ==> ops[i].obj != o
  }

  /** The found move is the newest: behind it are moves of other objects only. */
  lemma {:induction false} FindMoveIsNewest(c: seq<Msg>, o: nat)
    requires FindMove(c, o) >= 0
    ensures forall k | FindMove(c, o) < k < |c| :: IsMove(c[k]) && c[k].obj != o
    decreases |c|
  {
    var n := |c| - 1;
    if c[n].obj != o {
      FindMoveIsNewest(c[..n], o);
      forall k | FindMove(c, o) < k < |c| ensures IsMove(c[k]) && c[k].obj != o {
        if k < n { assert c[k] == c[..n][k]; }
      }
    }
  }

  /** Calls that do not move o neither make nor overwrite a message of a move of o. */
  lemma {:induction false} OthersKeepMoves(c: seq<Msg>, ops: seq<Op>, o: nat, x: int, y: int)
    requires NoMoves(ops, o)
    ensures forall k | 0 <= k < |c| :: PushAll(c, ops)[k] == MoveMsg(o, x, y) <==> c[k] == MoveMsg(o, x, y)
    decreases |ops|
  {
    if ops != [] {
      OthersKeepMoves(c, ops[..|ops| - 1], o, x, y);
    }
  }

  /** The rest of a drain whose handlers do not move o delivers a move of o if and
      only if it is in the rest of the snapshot. */
  lemma {:induction false} DeliversWhatIsLeft(p: seq<Msg>, n: nat, i: nat, script: seq<seq<Op>>, o: nat, x: int, y: int)
    requires n <= |p| && forall k | i <= k < |script| :: NoMoves(script[k], o)
    ensures MoveMsg(o, x, y) in Deliver(p, n, i, script).1 <==> MoveMsg(o, x, y) in p[..n]
    decreases n
  {
    if n > 0 {
      var run := if p[0].signal < SIG_COUNT then Handler(script, i) else [];
      var p' := PushAll(p, run)[1..];
      OthersKeepMoves(p, run, o, x, y);
      DeliversWhatIsLeft(p', n - 1, i + 1, script, o, x, y);
      var m := MoveMsg(o, x, y);
      assert m in p'[..n - 1] <==> exists k :: 1 <= k < n && p[k] == m by {
        if m in p'[..n - 1] {
          var k :| 0 <= k < n - 1 && p'[k] == m;
          assert p[k + 1] == m;
        }
        if k :| 1 <= k < n && p[k] == m {
          assert p'[..n - 1][k - 1] == m;
        }
      }
    }
  }

  /** While the message at the front is dispatched, a call folds into the message j
      of the snapshot. When it is the last of its object until then, this drain
      delivers it if and only if j is still to be dispatched. */
  lemma FoldIsDeliveredIffItsSlotIsToCome(p: seq<Msg>, n: nat, op: Op, later: seq<Op>,
                                          i: nat, script: seq<seq<Op>>)
    requires n <= |p| && FoldsInto(p, op, n)
    requires NoMoves(later, op.obj) && forall k | i < k < |script| :: NoMoves(script[k], op.obj)
    ensures var p' := PushAll(Push(p, op), later)[1..];
            MoveMsg(op.obj, op.x, op.y) in Deliver(p', n - 1, i + 1, script).1 <==> FindMove(p, op.obj) > 0
  {
    var m, j := MoveMsg(op.obj, op.x, op.y), FindMove(p, op.obj);
    var q := PushAll(Push(p, op), later);
    OthersKeepMoves(Push(p, op), later, op.obj, op.x, op.y);
    DeliversWhatIsLeft(q[1..], n - 1, i + 1, script, op.obj, op.x, op.y);
    FindMoveIsNewest(p, op.obj);
    if j > 0 {
      assert q[1..][..n - 1][j - 1] == m;
    } else {
      forall k | 1 <= k < n ensures q[k] != m {
        assert q[k] == m <==> Push(p, op)[k] == m;
      }
    }
  }

  lemma FindMoveIgnoresCoordinates(c: seq<Msg>, v: Msg, o: nat)
    requires c != [] && IsMove(c[0]) && IsMove(v) && v.obj == c[0].obj
    ensures FindMove(c[0 := v], o) == FindMove(c, o)
    decreases |c|
  {
    var n := |c| - 1;
    if n > 0 {
      assert c[0 := v][..n] == c[..n][0 := v];
      FindMoveIgnoresCoordinates(c[..n], v, o);
    }
  }

  /** A call that folds into the message being dispatched is lost: whatever its
      handler calls after it, the drain goes on as if it had not been made. */
  lemma {:induction false} FoldIntoTheDispatchedIsLost(p: seq<Msg>, op: Op, later: seq<Op>)
    requires p != [] && op.Move? && FindMove(p, op.obj) == 0
    ensures PushAll(Push(p, op), later)[1..] == PushAll(p, later)[1..]
  {
    FirstCoordinatesDoNotMatter(p, MoveMsg(op.obj, op.x, op.y), later);
  }

  lemma {:induction false} FirstCoordinatesDoNotMatter(p: seq<Msg>, v: Msg, ops: seq<Op>)
    requires p != [] && IsMove(p[0]) && IsMove(v) && v.obj == p[0].obj
    ensures var q, q' := PushAll(p, ops), PushAll(p[0 := v], ops);
            |q| == |q'| && q[1..] == q'[1..] && IsMove(q[0]) && IsMove(q'[0]) && q[0].obj == q'[0].obj == v.obj
    decreases |ops|
  {
    if ops != [] {
      var n := |ops| - 1;
      FirstCoordinatesDoNotMatter(p, v, ops[..n]);
      var q, q' := PushAll(p, ops[..n]), PushAll(p[0 := v], ops[..n]);
      assert q' == q[0 := q'[0]];
      if ops[n].Move? { FindMoveIgnoresCoordinates(q, q'[0], ops[n].obj); }
    }
  }

  lemma {:induction false} PushAllOne(c: seq<Msg>, op: Op)
    ensures PushAll(c, [op]) == Push(c, op)
  {
    assert [op][..0] == [] && PushAll(c, []) == c;
  }

  /** A handler of a move that moves the same object: the call is neither delivered
      now nor kept for later. */
  lemma FoldedMoveIsLost()
    ensures Deliver([MoveMsg(7, 1, 1)], 1, 0, [[Move(7, 2, 2)]]) == ([], [MoveMsg(7, 1, 1)])
  {
    var p, h := [MoveMsg(7, 1, 1)], Move(7, 2, 2);
    PushAllOne(p, h);
    assert FindMove(p, 7) == 0 && Push(p, h) == [MoveMsg(7, 2, 2)] && Push(p, h)[1..] == [];
    assert Handler([[h]], 0) == [h];
    DeliverStep(p, 1, 0, [[h]], [h]);
    assert PushAll(p, [h])[1..] == [] && p == [p[0]] + [];
    assert Deliver([], 0, 1, [[h]]) == ([], []);
  }

  /** The same handler moving an object whose move is still to be dispatched: that
      slot delivers the new coordinates. */
  lemma FoldedMoveIsDelivered()
    ensures Deliver([MoveMsg(7, 1, 1), MoveMsg(8, 1, 1)], 2, 0, [[Move(8, 2, 2)]])
            == ([], [MoveMsg(7, 1, 1), MoveMsg(8, 2, 2)])
  {
    var p, h := [MoveMsg(7, 1, 1), MoveMsg(8, 1, 1)], Move(8, 2, 2);
    var script := [[h]];
    var q := [MoveMsg(8, 2, 2)];
    PushAllOne(p, h);
    assert FindMove(p, 8) == 1 && Push(p, h)[1..] == q;
    assert Handler(script, 0) == [h] && Handler(script, 1) == [];
    DeliverStep(p, 2, 0, script, [h]);
    DeliverStep(q, 1, 1, script, []);
    assert PushAll(p, [h])[1..] == q && q == q + [];
    assert [p[0]] + q == [MoveMsg(7, 1, 1), MoveMsg(8, 2, 2)];
    assert PushAll(q, [])[1..] == [] && Deliver([], 0, 2, script) == ([], []);
  }

  // --- whole runs ---

  datatype Step = Acted(act: Act) | Drained(script: seq<seq<Act>>) | Dropped

  /** Dropped is a reset against the owning Lua state, or a wipe. */
  function Take(s: State, step: Step): State {
    match step
    case Acted(act) => Perform(s, act)
    case Drained(script) => Drain(s, script).0
    case Dropped => State([], ReleaseAll(s.reg, s.q))
  }

  function Run(s: State, steps: seq<Step>): State {
    if steps == [] then s else Take(Run(s, steps[..|steps| - 1]), steps[|steps| - 1])
  }

  function BaseTaken(s: State, base: map<int, R.Value>, step: Step): map<int, R.Value> {
    match step
    case Acted(act) => BaseAfter(s, base, act)
    case Drained(script) => BaseAfterDrain(s, base, |s.q|, 0, script)
    case Dropped => base
  }

  /** What other users of the registry hold after the run. */
  function BaseRun(reg: R.Registry, steps: seq<Step>): map<int, R.Value> {
    if steps == [] then reg.live
    else
      var init := steps[..|steps| - 1];
      BaseTaken(Run(State([], reg), init), BaseRun(reg, init), steps[|steps| - 1])
  }

  /** The same run on the pending messages alone. */
  function PendingAfter(steps: seq<Step>): seq<Msg> {
    if steps == [] then []
    else
      var p := PendingAfter(steps[..|steps| - 1]);
      match steps[|steps| - 1]
      case Acted(act) => if act.Produce? then Push(p, act.op) else p
      case Drained(script) => Deliver(p, |p|, 0, Calls(script)).0
      case Dropped => []
  }

  predicate FitsStep(s: State, base: map<int, R.Value>, step: Step) {
    match step
    case Acted(act) => Allowed(base, act)
    case Drained(script) => FitsDrain([], s, base, |s.q|, script)
    case Dropped => true
  }

  predicate FitsRun(reg: R.Registry, steps: seq<Step>) {
    steps != [] ==>
      var init := steps[..|steps| - 1];
      FitsRun(reg, init) && FitsStep(Run(State([], reg), init), BaseRun(reg, init), steps[|steps| - 1])
  }

  lemma {:induction false} ReleaseAllOwned(q: seq<Event>, reg: R.Registry, base: map<int, R.Value>, n: nat)
    requires Owned(State(q, reg), base) && n <= |q|
    ensures Owned(State(q[n..], ReleaseAll(reg, q[..n])), base)
    decreases n
  {
    if n == 0 {
      assert q[0..] == q && q[..0] == [];
    } else {
      ReleaseAllOwned(q, reg, base, n - 1);
      assert q[..n][..n - 1] == q[..n - 1] && q[n - 1..][1..] == q[n..];
      ReleaseFirst(q[n - 1..], ReleaseAll(reg, q[..n - 1]), base);
    }
  }

  lemma StepOwned(s: State, base: map<int, R.Value>, step: Step)
    requires Owned(s, base) && FitsStep(s, base, step)
    ensures Owned(Take(s, step), BaseTaken(s, base, step))
  {
    match step
    case Acted(act) => PerformCorrect(s, base, act);
    case Drained(script) => DrainIsDeliver(s, base, script);
    case Dropped =>
      ReleaseAllOwned(s.q, s.reg, base, |s.q|);
      assert s.q[..|s.q|] == s.q && s.q[|s.q|..] == [];
  }

  lemma StepPending(s: State, base: map<int, R.Value>, step: Step)
    requires Owned(s, base) && FitsStep(s, base, step)
    ensures Pending(Take(s, step)) ==
            match step
            case Acted(act) => if act.Produce? then Push(Pending(s), act.op) else Pending(s)
            case Drained(script) => Deliver(Pending(s), |s.q|, 0, Calls(script)).0
            case Dropped => []
  {
    match step
    case Acted(act) => PerformCorrect(s, base, act);
    case Drained(script) => DrainIsDeliver(s, base, script);
    case Dropped =>
  }

  /** Over every run, whatever the handlers and the registry's other users do: the
      references held are what the others hold and those of the pending events, none is
      released twice, none is left behind, and what is pending is what the run on messages
      says. */
  lemma {:induction false} RunsHoldExactlyTheQueue(reg: R.Registry, steps: seq<Step>)
    requires R.Valid(reg) && FitsRun(reg, steps)
    ensures var s := Run(State([], reg), steps);
            && Owned(s, BaseRun(reg, steps)) && Pending(s) == PendingAfter(steps)
            && (s.q == [] ==> s.reg.live == BaseRun(reg, steps))
    decreases |steps|
  {
    if steps == [] {
      assert Owned(State([], reg), reg.live);
    } else {
      var init, last := steps[..|steps| - 1], steps[|steps| - 1];
      RunsHoldExactlyTheQueue(reg, init);
      var s := Run(State([], reg), init);
      StepOwned(s, BaseRun(reg, init), last);
      StepPending(s, BaseRun(reg, init), last);
    }
    var t := Run(State([], reg), steps);
    if t.q == [] { NothingHeld(t.q, t.reg.live, BaseRun(reg, steps)); }
  }

  lemma NothingHeld(q: seq<Event>, live: map<int, R.Value>, base: map<int, R.Value>)
    requires q == [] && OwnedIn(q, live, base)
    ensures live == base
  {
    forall k | k in live ensures k in base && live[k] == base[k] {}
    forall k | k in base ensures k in live {}
    assert forall k :: k in live.Keys <==> k in base.Keys;
    assert live.Keys == base.Keys;
  }
}

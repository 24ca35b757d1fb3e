/**
 The closure guard. Closures that Lua hands to libffi are wrapped with the generation
 they were made in; a call reaches Lua only when that generation is the ready one.
 The counters are atomics and callbacks may come from any thread, so the model
 interleaves single loads and stores.
 */
module ClosureGuard {
  import opened Options

  /** A call that has loaded ready: its closure's generation, what it loaded, and the
      oldest generation that could still be ready at that moment. */
  datatype Call = Call(gen: nat, ready: int, floor: nat)

  datatype Note = Ran(gen: nat, ready: int, floor: nat) | Warned(during: nat)

  /** The shared words; where a bump stands (0 when none runs) and what a mark has loaded;
      closures read but not yet in the table, the table, and calls in flight. */
  datatype State = State(gen: nat, ready: int, reported: bool, bump: nat, mark: Option<nat>,
                         preps: seq<(nat, nat)>, live: map<nat, nat>, calls: seq<Call>, notes: seq<Note>)

  const Fresh := State(0, 0, false, 0, None, [], map[], [], [])

  datatype Step =
    | BumpGen | BumpReady | BumpReported
    | MarkLoad | MarkStore
    | PrepLoad(closure: nat) | PrepInsert(i: nat) | Free(closure: nat)
    | CallLoad(closure: nat) | CallFinish(c: nat, valid: bool)

  predicate Enabled(s: State, t: Step) {
    match t
    case BumpGen => s.bump == 0
    case BumpReady => s.bump == 1
    case BumpReported => s.bump == 2
    case MarkLoad => s.mark.None?
    case MarkStore => s.mark.Some?
    case PrepLoad(_) => true
    case PrepInsert(i) => i < |s.preps|
    case Free(_) => true
    case CallLoad(closure) => closure in s.live
    case CallFinish(c, _) => c < |s.calls|
  }

  /** The oldest generation that ready may hold: a bump raises it by its second store. */
  function Floor(s: State): nat {
    if s.bump == 1 && s.gen > 0 then s.gen - 1 else s.gen
  }

  function Dropped<T>(xs: seq<T>, i: nat): seq<T>
    requires i < |xs|
  {
    xs[..i] + xs[i + 1..]
  }

  function Take(s: State, t: Step): State
    requires Enabled(s, t)
  {
    match t
    case BumpGen => s.(gen := s.gen + 1, bump := 1)
    case BumpReady => s.(ready := -1, bump := 2)
    case BumpReported => s.(reported := false, bump := 0)
    case MarkLoad => s.(mark := Some(s.gen))
    case MarkStore => s.(ready := s.mark.value, mark := None)
    case PrepLoad(closure) => s.(preps := s.preps + [(closure, s.gen)])
    case PrepInsert(i) => s.(preps := Dropped(s.preps, i), live := s.live[s.preps[i].0 := s.preps[i].1])
    case Free(closure) => s.(live := s.live - {closure})
    case CallLoad(closure) => s.(calls := s.calls + [Call(s.live[closure], s.ready, Floor(s))])
    case CallFinish(c, valid) =>
      var call := s.calls[c];
      var rest := s.(calls := Dropped(s.calls, c));
      if call.gen != call.ready then
        if s.reported then rest else rest.(reported := true, notes := s.notes + [Warned(s.gen)])
      else if valid then rest.(notes := s.notes + [Ran(call.gen, call.ready, call.floor)])
      else rest
  }

  predicate Along(s: State, ts: seq<Step>)
    decreases |ts|
  {
    ts == [] || (Enabled(s, ts[0]) && Along(Take(s, ts[0]), ts[1..]))
  }

  function Run(s: State, ts: seq<Step>): State
    requires Along(s, ts)
    decreases |ts|
  {
    if ts == [] then s else Run(Take(s, ts[0]), ts[1..])
  }

  /** Bumps and marks come from one thread: neither begins inside the other. */
  predicate Serial(s: State, ts: seq<Step>)
    requires Along(s, ts)
    decreases |ts|
  {
    ts == []
    || ((ts[0].BumpGen? ==> s.mark.None?) && (ts[0].MarkLoad? ==> s.bump == 0) && Serial(Take(s, ts[0]), ts[1..]))
  }

  // --- which closures run ---

  predicate WordsSound(s: State) {
    && s.bump <= 2 && (s.bump > 0 ==> s.gen > 0 && s.mark.None?)
    && (s.mark.Some? ==> s.mark.value == s.gen)
    && (s.ready == -1 || Floor(s) <= s.ready <= s.gen)
  }

  predicate CallSound(c: Call, floor: nat) {
    c.floor <= floor && (c.ready == -1 || c.floor <= c.ready)
  }

  predicate Sound(s: State) {
    WordsSound(s) && forall i | 0 <= i < |s.calls| :: CallSound(s.calls[i], Floor(s))
  }

  predicate NoteSound(n: Note) {
    n.Ran? ==> n.gen == n.ready && n.floor <= n.gen
  }

  predicate NotesSound(s: State) {
    forall i | 0 <= i < |s.notes| :: NoteSound(s.notes[i])
  }

  lemma WordsStaySound(s: State, t: Step)
    requires WordsSound(s) && Enabled(s, t) && (t.BumpGen? ==> s.mark.None?) && (t.MarkLoad? ==> s.bump == 0)
    ensures WordsSound(Take(s, t)) && Floor(s) <= Floor(Take(s, t))
  {
  }

  lemma StepSound(s: State, t: Step)
    requires Sound(s) && Enabled(s, t) && (t.BumpGen? ==> s.mark.None?) && (t.MarkLoad? ==> s.bump == 0)
    ensures Sound(Take(s, t)) && Floor(s) <= Floor(Take(s, t))
  {
    WordsStaySound(s, t);
    var u := Take(s, t);
    forall i | 0 <= i < |u.calls| ensures CallSound(u.calls[i], Floor(u)) {
      if t.CallFinish? {
        assert u.calls[i] == s.calls[if i < t.c then i else i + 1];
      } else if i < |s.calls| {
        assert CallSound(s.calls[i], Floor(s));
      }
    }
  }

  lemma StepNotesSound(s: State, t: Step)
    requires Sound(s) && NotesSound(s) && Enabled(s, t)
    ensures NotesSound(Take(s, t))
  {
    if t.CallFinish? { assert CallSound(s.calls[t.c], Floor(s)); }
  }

  /** In every run, a closure that reaches its real function was made in the generation its
      call found ready, and no bump past that generation had cleared ready before. */
  lemma {:induction false} OnlyTheReadyGenerationRuns(s: State, ts: seq<Step>)
    requires Sound(s) && NotesSound(s) && Along(s, ts) && Serial(s, ts)
    ensures Sound(Run(s, ts)) && NotesSound(Run(s, ts)) && Floor(s) <= Floor(Run(s, ts))
    decreases |ts|
  {
    if ts != [] {
      StepSound(s, ts[0]);
      StepNotesSound(s, ts[0]);
      OnlyTheReadyGenerationRuns(Take(s, ts[0]), ts[1..]);
    }
  }

  /** Every call in flight, and every closure that ran after the first n notes, either was
      loaded before the floor was raised to g or belongs to generation g or a later one. */
  predicate NoneOlder(s: State, g: nat, early: seq<Call>, n: nat) {
    && (forall i | 0 <= i < |s.calls| :: s.calls[i] in early || s.calls[i].floor >= g)
    && (forall i | n <= i < |s.notes| :: s.notes[i].Ran? ==>
          s.notes[i].gen >= g || Call(s.notes[i].gen, s.notes[i].ready, s.notes[i].floor) in early)
  }

  lemma NoneOlderStep(s: State, t: Step, g: nat, early: seq<Call>, n: nat)
    requires Sound(s) && Enabled(s, t) && g <= Floor(s) && NoneOlder(s, g, early, n) && n <= |s.notes|
    ensures NoneOlder(Take(s, t), g, early, n) && n <= |Take(s, t).notes|
  {
    if t.CallFinish? {
      var rest := Dropped(s.calls, t.c);
      assert forall i | 0 <= i < |rest| :: rest[i] == s.calls[if i < t.c then i else i + 1];
      var c := s.calls[t.c];
      assert CallSound(c, Floor(s)) && c == Call(c.gen, c.ready, c.floor);
    }
  }

  lemma {:induction false} NoneOlderRuns(s: State, ts: seq<Step>, g: nat, early: seq<Call>, n: nat)
    requires Sound(s) && Along(s, ts) && Serial(s, ts) && g <= Floor(s) && NoneOlder(s, g, early, n) && n <= |s.notes|
    ensures NoneOlder(Run(s, ts), g, early, n)
    decreases |ts|
  {
    if ts != [] {
      StepSound(s, ts[0]);
      NoneOlderStep(s, ts[0], g, early, n);
      NoneOlderRuns(Take(s, ts[0]), ts[1..], g, early, n);
    }
  }

  /** Once a bump has returned, no older closure runs in any continuation, unless its call
      had loaded ready before: those calls are exactly the ones in flight. */
  lemma {:induction false} NothingOlderRunsAfterABump(s: State, ts: seq<Step>)
    requires Sound(s) && s.bump == 0 && Along(s, ts) && Serial(s, ts)
    ensures var last := Run(s, ts);
            forall i | |s.notes| <= i < |last.notes| :: last.notes[i].Ran? ==>
              last.notes[i].gen >= s.gen
              || Call(last.notes[i].gen, last.notes[i].ready, last.notes[i].floor) in s.calls
  {
    NoneOlderRuns(s, ts, s.gen, s.calls, |s.notes|);
  }

  /** The steps may be taken from s and lead to t. */
  predicate Reaches(s: State, ts: seq<Step>, t: State) {
    Along(s, ts) && Run(s, ts) == t
  }

  predicate Steps(s: State, step: Step, t: State) {
    Enabled(s, step) && Take(s, step) == t
  }

  lemma Prepended(s: State, step: Step, t: State, ts: seq<Step>, u: State)
    requires Steps(s, step, t) && Reaches(t, ts, u)
    ensures Reaches(s, [step] + ts, u)
  {
    assert ([step] + ts)[1..] == ts;
  }

  lemma {:induction false} Joined(s: State, a: seq<Step>, t: State, b: seq<Step>, u: State)
    requires Reaches(s, a, t) && Reaches(t, b, u)
    ensures Reaches(s, a + b, u)
    decreases |a|
  {
    if a == [] {
      assert a + b == b;
    } else {
      assert (a + b)[1..] == a[1..] + b;
      Joined(Take(s, a[0]), a[1..], t, b, u);
    }
  }

  lemma Three(s: State, a: Step, t: State, b: Step, u: State, c: Step, v: State)
    requires Steps(s, a, t) && Steps(t, b, u) && Steps(u, c, v)
    ensures Reaches(s, [a, b, c], v)
  {
    assert Reaches(v, [], v);
    Prepended(u, c, v, [], v);
    Prepended(t, b, u, [c] + [], v);
    Prepended(s, a, t, [b] + ([c] + []), v);
    assert [a] + ([b] + ([c] + [])) == [a, b, c];
  }

  /** The exception is real: a call that loaded ready before a bump runs after it has returned. */
  lemma AnInFlightCallRunsAfterABump()
    ensures var before := [PrepLoad(7), PrepInsert(0), CallLoad(7)] + [BumpGen, BumpReady, BumpReported];
            && Along(Fresh, before) && Run(Fresh, before).bump == 0 && Run(Fresh, before).gen == 1
            && Along(Fresh, before + [CallFinish(0, true)])
            && Run(Fresh, before + [CallFinish(0, true)]).notes == [Ran(0, 0, 0)]
  {
    var s3 := PreparedAndLoaded();
    var s6 := State(1, -1, false, 0, None, [], map[7 := 0], [Call(0, 0, 0)], []);
    Three(s3, BumpGen, s3.(gen := 1, bump := 1), BumpReady, s3.(gen := 1, bump := 2, ready := -1), BumpReported, s6);
    assert Dropped(s6.calls, 0) == [];
    var s7 := State(1, -1, false, 0, None, [], map[7 := 0], [], [Ran(0, 0, 0)]);
    assert Reaches(s7, [], s7);
    Prepended(s6, CallFinish(0, true), s7, [], s7);
    assert [CallFinish(0, true)] + [] == [CallFinish(0, true)];
    var loaded, bump := [PrepLoad(7), PrepInsert(0), CallLoad(7)], [BumpGen, BumpReady, BumpReported];
    Joined(Fresh, loaded, s3, bump, s6);
    Joined(Fresh, loaded + bump, s6, [CallFinish(0, true)], s7);
  }

  lemma PreparedAndLoaded() returns (s3: State)
    ensures s3 == State(0, 0, false, 0, None, [], map[7 := 0], [Call(0, 0, 0)], [])
    ensures Reaches(Fresh, [PrepLoad(7), PrepInsert(0), CallLoad(7)], s3)
  {
    var s1 := Fresh.(preps := [(7, 0)]);
    assert Dropped(s1.preps, 0) == [];
    var s2 := Fresh.(live := map[7 := 0]);
    s3 := s2.(calls := [Call(0, 0, 0)]);
    Three(Fresh, PrepLoad(7), s1, PrepInsert(0), s2, CallLoad(7), s3);
  }

  /** With a mark that a bump interrupts, the old generation is made ready again after the
      bump has returned. */
  lemma AnInterruptedMarkRevivesTheOld()
    ensures var ts := [MarkLoad, BumpGen, BumpReady] + ([BumpReported] + [MarkStore]);
            Along(Fresh, ts) && Run(Fresh, ts).ready == 0 && Run(Fresh, ts).gen == 1 && Run(Fresh, ts).bump == 0
  {
    var a := Fresh.(mark := Some(0));
    var b := a.(gen := 1, bump := 1);
    var c := b.(ready := -1, bump := 2);
    Three(Fresh, MarkLoad, a, BumpGen, b, BumpReady, c);
    var d := c.(reported := false, bump := 0);
    var e := d.(ready := 0, mark := None);
    assert Reaches(e, [], e);
    Prepended(d, MarkStore, e, [], e);
    assert [MarkStore] + [] == [MarkStore];
    Prepended(c, BumpReported, d, [MarkStore], e);
    Joined(Fresh, [MarkLoad, BumpGen, BumpReady], c, [BumpReported] + [MarkStore], e);
  }

  // --- warnings ---

  function Warnings(notes: seq<Note>, g: nat): nat {
    if notes == [] then 0
    else Warnings(notes[..|notes| - 1], g) + if notes[|notes| - 1] == Warned(g) then 1 else 0
  }

  lemma {:induction false} WarningsSnoc(notes: seq<Note>, n: Note, g: nat)
    ensures Warnings(notes + [n], g) == Warnings(notes, g) + if n == Warned(g) then 1 else 0
  {
    assert (notes + [n])[..|notes|] == notes;
  }

  /** A call that is decided and does not get through. */
  predicate Blocked(s: State, t: Step)
    requires Enabled(s, t)
  {
    t.CallFinish? && s.calls[t.c].gen != s.calls[t.c].ready
  }

  predicate Warns(s: State, t: Step)
    requires Enabled(s, t)
  {
    Blocked(s, t) && !s.reported
  }

  /** A blocked call warns between the first and the last store of the bump to g. */
  predicate WarnsDuringBump(s: State, ts: seq<Step>, g: nat)
    requires Along(s, ts)
    decreases |ts|
  {
    ts != [] && ((s.gen == g && s.bump > 0 && Warns(s, ts[0])) || WarnsDuringBump(Take(s, ts[0]), ts[1..], g))
  }

  /** A call is blocked in generation g while no bump is under way. */
  predicate BlockedAfterBump(s: State, ts: seq<Step>, g: nat)
    requires Along(s, ts)
    decreases |ts|
  {
    ts != [] && ((s.gen == g && s.bump == 0 && Blocked(s, ts[0])) || BlockedAfterBump(Take(s, ts[0]), ts[1..], g))
  }

  lemma {:induction false} StepWarns(s: State, t: Step, g: nat)
    requires Enabled(s, t)
    ensures Warnings(Take(s, t).notes, g) == Warnings(s.notes, g) + if Warns(s, t) && s.gen == g then 1 else 0
  {
    var u := Take(s, t);
    if u.notes != s.notes { WarningsSnoc(s.notes, u.notes[|s.notes|], g); }
  }

  /** A generation that is over warns no more. */
  lemma {:induction false} PastWarnsNoMore(s: State, ts: seq<Step>, g: nat)
    requires Along(s, ts) && s.gen > g
    ensures !WarnsDuringBump(s, ts, g) && !BlockedAfterBump(s, ts, g)
            && Warnings(Run(s, ts).notes, g) == Warnings(s.notes, g)
    decreases |ts|
  {
    if ts != [] {
      StepWarns(s, ts[0], g);
      PastWarnsNoMore(Take(s, ts[0]), ts[1..], g);
    }
  }

  /** After the last store, or after a warning before it, the bump to g warns no more. */
  lemma {:induction false} BumpWarnsOnce(s: State, ts: seq<Step>, g: nat)
    requires Along(s, ts) && s.gen == g && (s.bump == 0 || s.reported)
    ensures !WarnsDuringBump(s, ts, g)
    decreases |ts|
  {
    if ts != [] {
      var t := Take(s, ts[0]);
      if t.gen > g { PastWarnsNoMore(t, ts[1..], g); } else { BumpWarnsOnce(t, ts[1..], g); }
    }
  }

  /** What a run adds to the warnings of a generation, from any point of it. */
  lemma {:induction false} WarningsAdded(s: State, ts: seq<Step>, g: nat)
    requires Along(s, ts)
    ensures Warnings(Run(s, ts).notes, g)
            == Warnings(s.notes, g)
               + (if WarnsDuringBump(s, ts, g) then 1 else 0)
               + (if BlockedAfterBump(s, ts, g) && !(s.gen == g && s.bump == 0 && s.reported) then 1 else 0)
    decreases |ts|
  {
    if ts != [] {
      var t := Take(s, ts[0]);
      StepWarns(s, ts[0], g);
      WarningsAdded(t, ts[1..], g);
      if s.gen == g && s.bump > 0 && Warns(s, ts[0]) {
        BumpWarnsOnce(t, ts[1..], g);
      } else if t.gen > g {
        PastWarnsNoMore(t, ts[1..], g);
      }
    }
  }

  /** Over every run: a generation warns twice if and only if a blocked call warns between
      the stores of the bump to it and another is blocked in it afterwards, and never
      more often. */
  lemma {:induction false} OneWarningAGeneration(ts: seq<Step>, g: nat)
    requires Along(Fresh, ts)
    ensures Warnings(Run(Fresh, ts).notes, g) <= 2
    ensures Warnings(Run(Fresh, ts).notes, g) <= 1
            <==> !(WarnsDuringBump(Fresh, ts, g) && BlockedAfterBump(Fresh, ts, g))
    ensures Warnings(Run(Fresh, ts).notes, g) == 0
            <==> !WarnsDuringBump(Fresh, ts, g) && !BlockedAfterBump(Fresh, ts, g)
  {
    WarningsAdded(Fresh, ts, g);
  }

  /** A timer of the old generation that fires during the bump and again after it. */
  lemma ACallDuringABumpWarnsTwice()
    ensures var ts := [PrepLoad(7), PrepInsert(0), BumpGen] + [BumpReady, CallLoad(7), CallFinish(0, true)]
                      + [BumpReported, CallLoad(7), CallFinish(0, true)];
            Along(Fresh, ts) && Run(Fresh, ts).notes == [Warned(1), Warned(1)] && Warnings(Run(Fresh, ts).notes, 1) == 2
  {
    var s3 := State(1, 0, false, 1, None, [], map[7 := 0], [], []);
    var s6 := State(1, -1, true, 2, None, [], map[7 := 0], [], [Warned(1)]);
    var s9 := State(1, -1, true, 0, None, [], map[7 := 0], [], [Warned(1), Warned(1)]);
    PreparedAndBumping(s3);
    var s5 := s3.(ready := -1, bump := 2, calls := [Call(0, -1, 1)]);
    BlockedCall(s5, s6);
    Three(s3, BumpReady, s3.(ready := -1, bump := 2), CallLoad(7), s5, CallFinish(0, true), s6);
    var s8 := s6.(reported := false, bump := 0, calls := [Call(0, -1, 1)]);
    BlockedCall(s8, s9);
    Three(s6, BumpReported, s6.(reported := false, bump := 0), CallLoad(7), s8, CallFinish(0, true), s9);
    var early, during := [PrepLoad(7), PrepInsert(0), BumpGen], [BumpReady, CallLoad(7), CallFinish(0, true)];
    Joined(Fresh, early, s3, during, s6);
    Joined(Fresh, early + during, s6, [BumpReported, CallLoad(7), CallFinish(0, true)], s9);
    TwoWarnings();
  }

  lemma PreparedAndBumping(s3: State)
    requires s3 == State(1, 0, false, 1, None, [], map[7 := 0], [], [])
    ensures Reaches(Fresh, [PrepLoad(7), PrepInsert(0), BumpGen], s3)
  {
    var s1 := Fresh.(preps := [(7, 0)]);
    assert Dropped(s1.preps, 0) == [];
    Three(Fresh, PrepLoad(7), s1, PrepInsert(0), Fresh.(live := map[7 := 0]), BumpGen, s3);
  }

  lemma BlockedCall(s: State, t: State)
    requires s.calls == [Call(0, -1, 1)] && !s.reported
    requires t == s.(calls := [], reported := true, notes := s.notes + [Warned(s.gen)])
    ensures Steps(s, CallFinish(0, true), t)
  {
    assert Dropped(s.calls, 0) == [];
  }

  lemma TwoWarnings()
    ensures Warnings([Warned(1), Warned(1)], 1) == 2
  {
    WarningsSnoc([], Warned(1), 1);
    assert [] + [Warned(1)] == [Warned(1)];
    WarningsSnoc([Warned(1)], Warned(1), 1);
    assert [Warned(1)] + [Warned(1)] == [Warned(1), Warned(1)];
  }

  // --- the live table ---

  /** The counts the guard answers with: closures of one generation, or of all below zero. */
  function LiveCount(live: map<nat, nat>, generation: int): nat { |LiveSet(live, generation)| }

  function LiveSet(live: map<nat, nat>, generation: int): set<nat> {
    set c | c in live && Counts(generation, live[c])
  }

  predicate Counts(generation: int, g: nat) { generation < 0 || g == generation }

  /** Insertions of closures of a generation along a run. */
  function Entered(s: State, ts: seq<Step>, generation: int): nat
    requires Along(s, ts)
    decreases |ts|
  {
    if ts == [] then 0
    else
      (if ts[0].PrepInsert? && Counts(generation, s.preps[ts[0].i].1) then 1 else 0)
      + Entered(Take(s, ts[0]), ts[1..], generation)
  }

  /** The closure a step takes out of the table: freed, or prepared anew at its address. */
  predicate TakesOut(s: State, t: Step, generation: int)
    requires Enabled(s, t)
  {
    match t
    case Free(closure) => closure in s.live && Counts(generation, s.live[closure])
    case PrepInsert(i) => s.preps[i].0 in s.live && Counts(generation, s.live[s.preps[i].0])
    case _ => false
  }

  function Left(s: State, ts: seq<Step>, generation: int): nat
    requires Along(s, ts)
    decreases |ts|
  {
    if ts == [] then 0
    else (if TakesOut(s, ts[0], generation) then 1 else 0) + Left(Take(s, ts[0]), ts[1..], generation)
  }

  lemma CountWithout(live: map<nat, nat>, closure: nat, generation: int)
    ensures LiveCount(live - {closure}, generation)
            == LiveCount(live, generation) - if closure in live && Counts(generation, live[closure]) then 1 else 0
  {
    assert LiveSet(live - {closure}, generation) == LiveSet(live, generation) - {closure};
  }

  lemma CountWith(live: map<nat, nat>, closure: nat, g: nat, generation: int)
    requires closure !in live
    ensures LiveCount(live[closure := g], generation) == LiveCount(live, generation)
            + if Counts(generation, g) then 1 else 0
  {
    assert LiveSet(live[closure := g], generation)
        == LiveSet(live, generation) + if Counts(generation, g) then {closure} else {};
  }

  /** The live counts are exact over every run: what entered less what left. */
  lemma {:induction false} LiveCountIsExact(s: State, ts: seq<Step>, generation: int)
    requires Along(s, ts)
    ensures LiveCount(Run(s, ts).live, generation) + Left(s, ts, generation)
            == LiveCount(s.live, generation) + Entered(s, ts, generation)
    decreases |ts|
  {
    if ts != [] {
      match ts[0] {
        case PrepInsert(i) =>
          var (closure, g) := s.preps[i];
          CountWithout(s.live, closure, generation);
          CountWith(s.live - {closure}, closure, g, generation);
          assert (s.live - {closure})[closure := g] == s.live[closure := g];
        case Free(closure) => CountWithout(s.live, closure, generation);
        case _ =>
      }
      LiveCountIsExact(Take(s, ts[0]), ts[1..], generation);
    }
  }

  // --- the entry points, each run to its end ---

  /** The entries are the live closures, one entry an address. */
  ghost predicate Lists(entries: seq<(nat, nat)>, live: map<nat, nat>) {
    && (forall i, j | 0 <= i < j < |entries| :: entries[i].0 != entries[j].0)
    && (forall i | 0 <= i < |entries| :: entries[i].0 in live && live[entries[i].0] == entries[i].1)
    && (forall c | c in live :: exists i :: 0 <= i < |entries| && entries[i].0 == c)
  }

  lemma ListsWithout(entries: seq<(nat, nat)>, live: map<nat, nat>, i: nat)
    requires Lists(entries, live) && i < |entries|
    ensures Lists(Dropped(entries, i), live - {entries[i].0})
  {
    var rest, gone := Dropped(entries, i), entries[i].0;
    forall k | 0 <= k < |rest| ensures rest[k].0 in live && live[rest[k].0] == rest[k].1 && rest[k].0 != gone {
      var j := if k < i then k else k + 1;
      assert rest[k] == entries[j];
      if j < i { assert entries[j].0 != entries[i].0; } else { assert entries[i].0 != entries[j].0; }
    }
    DroppedIsDistinct(entries, i);
    OthersRemain(entries, live, i);
  }

  lemma DroppedIsDistinct(entries: seq<(nat, nat)>, i: nat)
    requires i < |entries| && forall k, l | 0 <= k < l < |entries| :: entries[k].0 != entries[l].0
    ensures var rest := Dropped(entries, i); forall k, l | 0 <= k < l < |rest| :: rest[k].0 != rest[l].0
  {
    var rest := Dropped(entries, i);
    forall k, l | 0 <= k < l < |rest| ensures rest[k].0 != rest[l].0 {
      assert rest[k] == entries[if k < i then k else k + 1] && rest[l] == entries[if l < i then l else l + 1];
    }
  }

  lemma OthersRemain(entries: seq<(nat, nat)>, live: map<nat, nat>, i: nat)
    requires i < |entries| && forall c | c in live :: exists j :: 0 <= j < |entries| && entries[j].0 == c
    ensures var rest := Dropped(entries, i);
            forall c | c in live && c != entries[i].0 :: exists j :: 0 <= j < |rest| && rest[j].0 == c
  {
    var rest := Dropped(entries, i);
    forall c | c in live && c != entries[i].0 ensures exists j :: 0 <= j < |rest| && rest[j].0 == c {
      var j :| 0 <= j < |entries| && entries[j].0 == c;
      assert rest[if j < i then j else j - 1].0 == c;
    }
  }

  lemma ListsReplaced(entries: seq<(nat, nat)>, live: map<nat, nat>, i: nat, g: nat)
    requires Lists(entries, live) && i < |entries|
    ensures Lists(entries[i := (entries[i].0, g)], live[entries[i].0 := g])
  {
    var next, after := entries[i := (entries[i].0, g)], live[entries[i].0 := g];
    forall c | c in after ensures exists j :: 0 <= j < |next| && next[j].0 == c {
      if c == entries[i].0 {
        assert next[i].0 == c;
      } else {
        var j :| 0 <= j < |entries| && entries[j].0 == c;
        assert next[j].0 == c;
      }
    }
  }

  lemma ListsAppended(entries: seq<(nat, nat)>, live: map<nat, nat>, closure: nat, g: nat)
    requires Lists(entries, live) && forall i | 0 <= i < |entries| :: entries[i].0 != closure
    ensures Lists(entries + [(closure, g)], live[closure := g])
  {
    var next, after := entries + [(closure, g)], live[closure := g];
    forall c | c in after ensures exists j :: 0 <= j < |next| && next[j].0 == c {
      if c == closure {
        assert next[|entries|].0 == c;
      } else {
        var j :| 0 <= j < |entries| && entries[j].0 == c;
        assert next[j].0 == c;
      }
    }
  }

  /** The table as libffi's address and the wrapper's generation, one entry an address. */
  class Guard {
    var gen: nat
    var ready: int
    var reported: bool
    var entries: seq<(nat, nat)>

    ghost predicate Holds(live: map<nat, nat>)
      reads this`entries
    {
      Lists(entries, live)
    }

    ghost predicate Is(s: State)
      reads this
    {
      gen == s.gen && ready == s.ready && reported == s.reported && Holds(s.live)
    }

    /** The entry passes the callback's test of its generation. */
    predicate Passes(entry: (nat, nat))
      reads this`ready
    {
      entry.1 == ready
    }

    /** The generation in progress is the newest in the table. */
    predicate NoneNewer()
      reads this`gen, this`entries
    {
      forall e | e in entries :: e.1 <= gen
    }

    /** Afterwards nothing in the table passes, and every closure in it is older than
        whatever is prepared next. */
    method BumpGeneration(ghost s: State)
      requires Is(s) && s.bump == 0 && NoneNewer()
      modifies this`gen, this`ready, this`reported
      ensures Is(Take(Take(Take(s, BumpGen), BumpReady), BumpReported))
      ensures NoneNewer() && forall e | e in entries :: !Passes(e) && e.1 < gen
    {
      gen := gen + 1;
      ready := -1;
      reported := false;
    }

    /** Afterwards exactly the closures prepared since the last bump pass. */
    method MarkReady(ghost s: State)
      requires Is(s) && s.mark.None? && NoneNewer()
      modifies this`ready
      ensures Is(Take(Take(s, MarkLoad), MarkStore))
      ensures forall e | e in entries :: Passes(e) <==> !(e.1 < gen)
    {
      var g := gen;
      ready := g;
    }

    /** A call of a closure in the table, loaded and decided with nothing between. */
    method Callback(closure: nat, g: nat, valid: bool, ghost s: State) returns (ran: bool, warned: bool)
      requires Is(s) && closure in s.live && s.live[closure] == g
      modifies this`reported
      ensures var t := Take(s, CallLoad(closure)); Is(Take(t, CallFinish(|s.calls|, valid)))
      ensures ran <==> g == old(ready) && valid
      ensures warned <==> g != old(ready) && !old(reported)
      ensures Take(Take(s, CallLoad(closure)), CallFinish(|s.calls|, valid)).notes
              == s.notes + (if ran then [Ran(g, old(ready), Floor(s))] else if warned then [Warned(s.gen)] else [])
    {
      ran, warned := false, false;
      var loaded := ready;
      if g != loaded {
        if !reported { reported, warned := true, true; }
        return;
      }
      ran := valid;
    }

    /** ffi_prep_closure_loc for one of Lua's functions: a new entry replaces one left at the address. */
    method Prep(closure: nat, ghost s: State)
      requires Is(s) && NoneNewer()
      modifies this`entries
      ensures Is(Take(Take(s, PrepLoad(closure)), PrepInsert(|s.preps|)))
      ensures NoneNewer() && (closure, gen) in entries
    {
      assert Take(Take(s, PrepLoad(closure)), PrepInsert(|s.preps|)).live == s.live[closure := gen];
      var i := 0;
      while i < |entries| && entries[i].0 != closure
        invariant 0 <= i <= |entries|
        invariant forall j | 0 <= j < i :: entries[j].0 != closure
      {
        i := i + 1;
      }
      if i < |entries| {
        ListsReplaced(entries, s.live, i, gen);
        entries := entries[i := (closure, gen)];
        assert entries[i] == (closure, gen);
      } else {
        ListsAppended(entries, s.live, closure, gen);
        entries := entries + [(closure, gen)];
      }
    }

    /** ffi_closure_free; an address that was never wrapped is not in the table. */
    method FreeClosure(closure: nat, ghost s: State)
      requires Is(s) && NoneNewer()
      modifies this`entries
      ensures Is(Take(s, Free(closure))) && NoneNewer()
    {
      ghost var was := entries;
      for i := 0 to |entries|
        invariant entries == was && forall j | 0 <= j < i :: entries[j].0 != closure
      {
        if entries[i].0 == closure {
          ListsWithout(entries, s.live, i);
          entries := Dropped(entries, i);
          return;
        }
      }
      assert closure !in s.live && s.live - {closure} == s.live;
    }

    /** lgi_guard_live_count */
    method LiveCountOf(generation: int, ghost live: map<nat, nat>) returns (count: nat)
      requires Holds(live)
      ensures count == LiveCount(live, generation)
    {
      count := 0;
      ghost var seen: set<nat> := {};
      for i := 0 to |entries|
        invariant count == |seen|
        invariant forall c ::
                    c in seen <==> exists j :: 0 <= j < i && entries[j].0 == c && Counts(generation, entries[j].1)
      {
        if generation < 0 || entries[i].1 == generation {
          assert entries[i].0 !in seen;
          seen := seen + {entries[i].0};
          count := count + 1;
        }
      }
      forall c ensures c in seen <==> c in LiveSet(live, generation) {
        if c in LiveSet(live, generation) {
          var j :| 0 <= j < |entries| && entries[j].0 == c;
        }
      }
      assert seen == LiveSet(live, generation);
    }
  }
}

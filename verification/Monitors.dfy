/**
 Monitors and the output layout. updatemons puts enabled outputs into the layout and
 takes disabled ones out; each such change raises the layout's change signal, whose
 listener is updatemons itself. A guard turns the inner calls into a note, and the
 pass runs again when it ends with the note set.
 */
module Monitors {
  import opened Options

  // --- the guard protocol ---

  /** What is on the call stack: a pass in its body or past it, a cleanup between its two
      guard writes or past them. */
  datatype Frame = Pass | PassTail | Cleanup | CleanupTail

  /** owed says that a change was raised since the last pass began. */
  datatype Guard = Guard(up: bool, pending: bool, stack: seq<Frame>, owed: bool)

  /** Call is updatemons being called, by a layout change or outright. */
  datatype Step = Call | EndBody | CleanupBegins | CleanupEnds | CheckPending

  function Begin(g: Guard): Guard {
    Guard(true, g.pending, g.stack + [Pass], false)
  }

  predicate TopIs(g: Guard, f: Frame) {
    g.stack != [] && g.stack[|g.stack| - 1] == f
  }

  function WithTop(g: Guard, f: Frame): seq<Frame>
    requires g.stack != []
  {
    g.stack[..|g.stack| - 1] + [f]
  }

  predicate Enabled(g: Guard, s: Step) {
    match s
    case Call => true
    case EndBody => TopIs(g, Pass)
    case CleanupBegins => true
    case CleanupEnds => TopIs(g, Cleanup)
    case CheckPending => TopIs(g, PassTail) || TopIs(g, CleanupTail)
  }

  function Take(g: Guard, s: Step): Guard
    requires Enabled(g, s)
  {
    match s
    case Call => if g.up then g.(pending := true, owed := true) else Begin(g)
    case EndBody => Guard(false, g.pending, WithTop(g, PassTail), g.owed)
    case CleanupBegins => Guard(true, g.pending, g.stack + [Cleanup], g.owed)
    case CleanupEnds => Guard(false, g.pending, WithTop(g, CleanupTail), g.owed)
    case CheckPending =>
      var popped := g.stack[..|g.stack| - 1];
      if g.pending then Begin(Guard(g.up, false, popped, g.owed)) else g.(stack := popped)
  }

  predicate Along(g: Guard, steps: seq<Step>)
    decreases |steps|
  {
    steps == [] || (Enabled(g, steps[0]) && Along(Take(g, steps[0]), steps[1..]))
  }

  function Run(g: Guard, steps: seq<Step>): Guard
    requires Along(g, steps)
    decreases |steps|
  {
    if steps == [] then g else Run(Take(g, steps[0]), steps[1..])
  }

  function Passes(stack: seq<Frame>): nat {
    if stack == [] then 0 else Passes(stack[..|stack| - 1]) + if stack[|stack| - 1].Pass? then 1 else 0
  }

  /** No cleanup is entered while a pass is in its body. */
  predicate CleanupsOutside(g: Guard, steps: seq<Step>)
    requires Along(g, steps)
    decreases |steps|
  {
    steps == []
    || ((steps[0].CleanupBegins? ==> !g.up) && CleanupsOutside(Take(g, steps[0]), steps[1..]))
  }

  /** Only the top of the stack can be inside guarded code, and the guard says whether it
      is; what is owed is noted, and some frame is left to look at the note. */
  predicate Disciplined(g: Guard) {
    && (forall i | 0 <= i < |g.stack| - 1 :: g.stack[i].PassTail? || g.stack[i].CleanupTail?)
    && (g.up <==> TopIs(g, Pass) || TopIs(g, Cleanup))
    && (g.owed ==> g.pending && g.stack != [])
  }

  lemma {:induction false} TailsHoldNoPass(stack: seq<Frame>)
    requires forall i | 0 <= i < |stack| :: stack[i].PassTail? || stack[i].CleanupTail?
    ensures Passes(stack) == 0
    decreases |stack|
  {
    if stack != [] { TailsHoldNoPass(stack[..|stack| - 1]); }
  }

  lemma StepDisciplined(g: Guard, s: Step)
    requires Disciplined(g) && Enabled(g, s) && (s.CleanupBegins? ==> !g.up)
    ensures Disciplined(Take(g, s))
  {
  }

  /** A note stays until the check that answers it, and only a call inside guarded code leaves one. */
  lemma NotesStay(g: Guard, s: Step)
    requires Enabled(g, s)
    ensures Take(g, s).pending <==> (g.pending && s != CheckPending) || (s == Call && g.up)
  {
  }

  /** Passes never nest, and when the last frame returns no change raised on the way is
      without a full pass that began after it. */
  lemma {:induction false} NoNestingNoLostChange(g: Guard, steps: seq<Step>)
    requires Disciplined(g) && Along(g, steps) && CleanupsOutside(g, steps)
    ensures Disciplined(Run(g, steps)) && Passes(Run(g, steps).stack) <= 1
    ensures Run(g, steps).stack == [] ==> !Run(g, steps).owed
    decreases |steps|
  {
    if steps == [] {
      if g.stack != [] { TailsHoldNoPass(g.stack[..|g.stack| - 1]); }
    } else {
      StepDisciplined(g, steps[0]);
      NoNestingNoLostChange(Take(g, steps[0]), steps[1..]);
    }
  }

  lemma {:induction false} PassesSnoc(stack: seq<Frame>, f: Frame)
    ensures Passes(stack + [f]) == Passes(stack) + if f.Pass? then 1 else 0
  {
    assert (stack + [f])[..|stack + [f]| - 1] == stack;
  }

  /** The condition cannot be dropped: from every pass body, a cleanup that removes its
      output from the layout starts a second pass inside the first. */
  lemma {:induction false} CleanupInsideAPassNests(g: Guard)
    requires Disciplined(g) && TopIs(g, Pass)
    ensures var steps := [CleanupBegins, Call, CleanupEnds, CheckPending];
            Along(g, steps) && Passes(Run(g, steps).stack) == 2
  {
    var a := Take(g, CleanupBegins);
    var b := Take(a, Call);
    var c := Take(b, CleanupEnds);
    var d := Take(c, CheckPending);
    assert c.stack == g.stack + [CleanupTail];
    assert c.stack[..|c.stack| - 1] == g.stack;
    TailsHoldNoPass(g.stack[..|g.stack| - 1]);
    PassesSnoc(g.stack, Pass);
    var steps := [CleanupBegins, Call, CleanupEnds, CheckPending];
    assert steps[1..] == [Call, CleanupEnds, CheckPending];
    assert steps[1..][1..] == [CleanupEnds, CheckPending];
    assert steps[1..][1..][1..] == [CheckPending];
    assert steps[1..][1..][1..][1..] == [];
  }

  // --- the passes ---

  /** What callbacks do during a pass. Each raises the layout's change signal. */
  datatype Action = Power(out: nat, on: bool, asleep: bool) | Move(out: nat) | Into(out: nat) | OutOf(out: nat)

  /** The actions at a pass's hook points, in order; past the end nothing happens. */
  type Script = seq<seq<Action>>

  predicate Quiet(script: Script) {
    forall i | 0 <= i < |script| :: script[i] == []
  }

  class Layout {
    var mons: seq<nat>
    var enabled: set<nat>
    var asleep: set<nat>
    var layout: set<nat>
    var selmon: Option<nat>
    var guard: bool
    var pending: bool
    ghost var passes: nat

    predicate Misplaced(m: nat)
      reads this`enabled, this`asleep, this`layout
    {
      if m in enabled then m !in layout else m !in asleep && m in layout
    }

    function MisplacedOf(ms: seq<nat>): nat
      reads this`enabled, this`asleep, this`layout
    {
      if ms == [] then 0 else MisplacedOf(ms[1..]) + if Misplaced(ms[0]) then 1 else 0
    }

    lemma {:induction false} NoneMisplaced(ms: seq<nat>)
      ensures MisplacedOf(ms) == 0 <==> forall i | 0 <= i < |ms| :: !Misplaced(ms[i])
    {
      if ms != [] {
        NoneMisplaced(ms[1..]);
        if forall i | 0 <= i < |ms| :: !Misplaced(ms[i]) {
          forall i | 0 <= i < |ms[1..]| ensures !Misplaced(ms[1..][i]) { assert ms[1..][i] == ms[i + 1]; }
        } else {
          var i :| 0 <= i < |ms| && Misplaced(ms[i]);
          if i > 0 { assert ms[1..][i - 1] == ms[i]; }
        }
      }
    }

    /** No pointer to a monitor that is not in the list. */
    predicate Selected()
      reads this
    {
      selmon.Some? ==> selmon.value in mons
    }

    /** There is a selected monitor, and no pass has a reason to take it out of the layout. */
    predicate Stays()
      reads this`selmon, this`enabled, this`asleep, this`layout
    {
      selmon.Some? && (selmon.value in enabled || selmon.value in asleep || selmon.value !in layout)
    }

    method Apply(a: Action)
      requires guard
      modifies this`enabled, this`asleep, this`layout, this`pending
      ensures pending
    {
      match a {
        case Power(out, on, sleep) =>
          enabled := if on then enabled + {out} else enabled - {out};
          asleep := if sleep then asleep + {out} else asleep - {out};
        case Move(out) =>
        case Into(out) => layout := layout + {out};
        case OutOf(out) => layout := layout - {out};
      }
      pending := true;
    }

    method Hook(script: Script, at: nat)
      requires guard
      modifies this`enabled, this`asleep, this`layout, this`pending
      ensures old(pending) ==> pending
      ensures !pending || at >= |script| || script[at] == [] ==>
                enabled == old(enabled) && asleep == old(asleep) && layout == old(layout) && pending == old(pending)
    {
      if at < |script| {
        for i := 0 to |script[at]|
          invariant old(pending) ==> pending
          invariant !pending || i == 0 ==>
                      enabled == old(enabled) && asleep == old(asleep) && layout == old(layout)
                        && pending == old(pending)
        {
          Apply(script[at][i]);
        }
      }
    }

    /** closemon: the selected monitor goes to the first other enabled one. */
    method CloseMon(m: nat)
      requires Selected() || selmon == Some(m)
      modifies this`selmon
      ensures selmon.Some? ==>
                selmon.value in mons && (old(selmon) == Some(m) ==> selmon.value != m && selmon.value in enabled)
      ensures mons != [] && old(selmon) != Some(m) ==> selmon == old(selmon)
      ensures mons != [] && selmon.None? && old(selmon) == Some(m) ==>
                forall i | 0 <= i < |mons| :: mons[i] == m || mons[i] !in enabled
      ensures mons != [] && selmon.Some? && old(selmon) == Some(m) ==>
                exists i :: 0 <= i < |mons| && mons[i] == selmon.value
                            && forall j | 0 <= j < i :: mons[j] == m || mons[j] !in enabled
    {
      if mons == [] {
        selmon := None;
      } else if selmon == Some(m) {
        selmon := None;
        for i := 0 to |mons|
          invariant selmon.None?
          invariant forall j | 0 <= j < i :: mons[j] == m || mons[j] !in enabled
        {
          if mons[i] != m && mons[i] in enabled {
            selmon := Some(mons[i]);
            return;
          }
        }
      }
    }

    /** The first loop: disabled outputs leave the layout. */
    method TakeOut(script: Script)
      requires guard && Selected()
      modifies this`enabled, this`asleep, this`layout, this`pending, this`selmon
      ensures Selected() && (old(pending) ==> pending)
      ensures !pending ==> enabled == old(enabled) && asleep == old(asleep) && layout == old(layout)
                           && forall i | 0 <= i < |mons| ::
                                mons[i] in enabled || mons[i] in asleep || mons[i] !in layout
      ensures Quiet(script) ==> enabled == old(enabled) && asleep == old(asleep)
                                && layout == set o | o in old(layout) && (o !in mons || o in enabled || o in asleep)
      ensures Quiet(script) &&
              (forall i | 0 <= i < |mons| ::
                 mons[i] in old(enabled) || mons[i] in old(asleep) || mons[i] !in old(layout)) ==>
                layout == old(layout) && pending == old(pending)
      ensures Quiet(script) && old(Stays()) ==> selmon == old(selmon)
      ensures old(selmon).None? ==> selmon.None?
      ensures Quiet(script) && old(selmon.Some?) && !old(Stays()) ==>
                if selmon.Some? then selmon.value in enabled else forall i | 0 <= i < |mons| :: mons[i] !in enabled
    {
      for k := 0 to |mons|
        invariant Selected() && (old(pending) ==> pending)
        invariant Quiet(script) && old(Stays()) ==> selmon == old(selmon)
        invariant old(selmon).None? ==> selmon.None?
        invariant Quiet(script) && old(selmon.Some?) && !old(Stays()) ==>
                    || (selmon == old(selmon) && selmon.value !in mons[..k])
                    || (selmon.Some? && selmon.value in enabled)
                    || (selmon.None? && forall i | 0 <= i < |mons| :: mons[i] !in enabled)
        invariant !pending ==> enabled == old(enabled) && asleep == old(asleep) && layout == old(layout)
                               && forall i | 0 <= i < k :: mons[i] in enabled || mons[i] in asleep || mons[i] !in layout
        invariant Quiet(script) ==> enabled == old(enabled) && asleep == old(asleep)
                                    && layout == set o | o in old(layout)
                                      && (o !in mons[..k] || o in enabled || o in asleep)
        invariant Quiet(script) &&
                  (forall i | 0 <= i < |mons| ::
                     mons[i] in old(enabled) || mons[i] in old(asleep) || mons[i] !in old(layout)) ==>
                    layout == old(layout) && pending == old(pending)
      {
        var m := mons[k];
        assert mons[..k + 1] == mons[..k] + [m];
        if m !in enabled && m !in asleep && m in layout {
          Hook(script, k);
          layout := layout - {m};
          pending := true;
          CloseMon(m);
        }
      }
      assert mons[..|mons|] == mons;
    }

    /** The second loop: enabled outputs enter it. */
    method PutIn()
      requires guard
      modifies this`layout, this`pending
      ensures old(pending) ==> pending
      ensures !pending ==>
                layout == old(layout) && forall i | 0 <= i < |mons| :: mons[i] in enabled ==> mons[i] in layout
      ensures layout == old(layout) + set o | o in mons && o in enabled
      ensures (forall i | 0 <= i < |mons| :: mons[i] in enabled ==> mons[i] in old(layout)) ==> pending == old(pending)
    {
      for k := 0 to |mons|
        invariant old(pending) ==> pending
        invariant !pending ==>
                    layout == old(layout) && forall i | 0 <= i < k :: mons[i] in enabled ==> mons[i] in layout
        invariant layout == old(layout) + set o | o in mons[..k] && o in enabled
        invariant (forall i | 0 <= i < |mons| :: mons[i] in enabled ==> mons[i] in old(layout)) ==>
                    pending == old(pending)
      {
        assert mons[..k + 1] == mons[..k] + [mons[k]];
        if mons[k] in enabled && mons[k] !in layout {
          layout := layout + {mons[k]};
          pending := true;
        }
      }
      assert mons[..|mons|] == mons;
    }

    /** The geometry loop and what follows it, where callbacks run, and where an enabled
        monitor is selected if none is. */
    method Settle(script: Script)
      requires guard && Selected()
      modifies this`enabled, this`asleep, this`layout, this`pending, this`selmon
      ensures Selected() && (old(pending) ==> pending)
      ensures !pending || Quiet(script) ==>
                enabled == old(enabled) && asleep == old(asleep) && layout == old(layout) && pending == old(pending)
      ensures !pending ==> selmon.Some? || forall i | 0 <= i < |mons| :: mons[i] !in enabled
      ensures old(selmon).Some? ==> selmon == old(selmon)
      ensures Quiet(script) && old(selmon).None? && selmon.Some? ==>
                exists i :: 0 <= i < |mons| && mons[i] == selmon.value && mons[i] in enabled
                            && forall j | 0 <= j < i :: mons[j] !in enabled
    {
      var n := |mons|;
      for k := 0 to n
        invariant Selected() && (old(pending) ==> pending)
        invariant old(selmon).Some? ==> selmon == old(selmon)
        invariant Quiet(script) && old(selmon).None? && selmon.None? ==> forall j | 0 <= j < k :: mons[j] !in enabled
        invariant Quiet(script) && old(selmon).None? && selmon.Some? ==>
                    exists i :: 0 <= i < k && mons[i] == selmon.value && mons[i] in enabled
                                && forall j | 0 <= j < i :: mons[j] !in enabled
        invariant !pending || Quiet(script) ==>
                    enabled == old(enabled) && asleep == old(asleep) && layout == old(layout) && pending == old(pending)
        invariant !pending ==> selmon.Some? || forall i | 0 <= i < k :: mons[i] !in enabled
      {
        if mons[k] in enabled {
          Hook(script, n + k);
          if selmon.None? { selmon := Some(mons[k]); }
        }
      }
      for k := 0 to n
        invariant Selected() && (old(pending) ==> pending)
        invariant !pending || Quiet(script) ==>
                    enabled == old(enabled) && asleep == old(asleep) && layout == old(layout) && pending == old(pending)
        invariant !pending ==> selmon.Some? || forall i | 0 <= i < |mons| :: mons[i] !in enabled
        modifies this`enabled, this`asleep, this`layout, this`pending
      {
        Hook(script, n + n + k);
      }
    }

    /** One pass, with the guard up. */
    method Pass(script: Script)
      requires guard && Selected()
      modifies this`enabled, this`asleep, this`layout, this`pending, this`selmon
      ensures Selected() && (old(pending) ==> pending)
      ensures !pending || Quiet(script) ==> forall i | 0 <= i < |mons| :: !Misplaced(mons[i])
      ensures !pending ==> selmon.Some? || forall i | 0 <= i < |mons| :: mons[i] !in enabled
      ensures Quiet(script) ==> enabled == old(enabled) && asleep == old(asleep)
      ensures Quiet(script) && (forall i | 0 <= i < |mons| :: old(!Misplaced(mons[i]))) ==> pending == old(pending)
      ensures Quiet(script) && old(Stays()) ==> selmon == old(selmon) && Stays()
      ensures Quiet(script) && !old(Stays()) ==> selmon.Some? ==> selmon.value in enabled
    {
      TakeOut(script);
      PutIn();
      Settle(script);
    }

    /** A call: a note inside a pass, else passes until one raises no change. The recursion
        ends because the callbacks' scripts run out and a pass without them leaves nothing
        misplaced, so that the next one changes nothing. */
    method UpdateMons(scripts: seq<Script>)
      requires Selected()
      modifies this
      ensures mons == old(mons) && guard == old(guard) && Selected()
      ensures old(guard) ==> pending && passes == old(passes)
      ensures !old(guard) ==> !pending && old(passes) < passes <= old(passes) + |scripts| + 3
      ensures !old(guard) ==> forall i | 0 <= i < |mons| :: !Misplaced(mons[i])
      ensures !old(guard) ==> selmon.Some? || forall i | 0 <= i < |mons| :: mons[i] !in enabled
      ensures !old(guard) && !old(pending) && |scripts| == 0 ==>
                enabled == old(enabled) && asleep == old(asleep)
                && passes <= old(passes) + 1 + (if old(MisplacedOf(mons)) > 0 then 1 else 0)
      ensures !old(guard) && |scripts| == 0 ==>
                if old(Stays()) then selmon == old(selmon) else selmon.Some? ==> selmon.value in enabled
      decreases |scripts|, if guard then 0 else if pending then |mons| + 1 else MisplacedOf(mons)
    {
      if guard {
        pending := true;
        return;
      }
      ghost var before := MisplacedOf(mons);
      NoneMisplaced(mons);
      guard := true;
      passes := passes + 1;
      var script := if scripts == [] then [] else scripts[0];
      Pass(script);
      guard := false;
      NoneMisplaced(mons);
      if scripts == [] {
        assert Quiet(script);
        if before == 0 {
          assert forall i | 0 <= i < |mons| :: old(!Misplaced(mons[i]));
        }
      }
      if pending {
        pending := false;
        UpdateMons(if scripts == [] then [] else scripts[1..]);
      }
    }

    /** cleanupmon, entered outside every pass: the monitor leaves the list and the layout
        with passes held back, and the passes it owes run at the end. */
    method CleanupMon(m: nat, scripts: seq<Script>)
      requires Selected() && m in mons && !guard && !pending
      modifies this
      ensures Selected() && !guard && !pending
      ensures mons == Without(old(mons), m) && (selmon.Some? ==> selmon.value in mons)
      ensures m in old(layout) ==> passes > old(passes) && forall i | 0 <= i < |mons| :: !Misplaced(mons[i])
      ensures m !in old(layout) ==> passes == old(passes)
    {
      WithoutKeeps(mons, m);
      mons := Without(mons, m);
      guard := true;
      if m in layout {
        layout := layout - {m};
        pending := true;
      }
      guard := false;
      CloseMon(m);
      if pending {
        pending := false;
        UpdateMons(scripts);
      }
    }
  }

  function Without(ms: seq<nat>, m: nat): seq<nat> {
    if ms == [] then [] else if ms[0] == m then Without(ms[1..], m) else [ms[0]] + Without(ms[1..], m)
  }

  lemma {:induction false} WithoutKeeps(ms: seq<nat>, m: nat)
    ensures forall x :: x in Without(ms, m) <==> x in ms && x != m
  {
    if ms != [] { WithoutKeeps(ms[1..], m); }
  }

  /** The one occurrence goes and the others close up, in their order. */
  lemma {:induction false} WithoutCloses(ms: seq<nat>, m: nat, k: nat)
    requires k < |ms| && ms[k] == m && m !in ms[..k] && m !in ms[k + 1..]
    ensures Without(ms, m) == ms[..k] + ms[k + 1..]
    decreases |ms|
  {
    if k == 0 {
      WithoutNone(ms[1..], m);
    } else {
      assert ms[..k][0] == ms[0];
      assert ms[1..][..k - 1] == ms[..k][1..] && ms[1..][k..] == ms[k + 1..];
      WithoutCloses(ms[1..], m, k - 1);
      assert ms[..k] == [ms[0]] + ms[..k][1..];
    }
  }

  lemma {:induction false} WithoutNone(ms: seq<nat>, m: nat)
    requires m !in ms
    ensures Without(ms, m) == ms
    decreases |ms|
  {
    if ms != [] {
      WithoutNone(ms[1..], m);
      assert ms == [ms[0]] + ms[1..];
    }
  }
}

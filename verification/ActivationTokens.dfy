/**
 Startup tokens. A spawned program gets a token, kept with a timer until a surface
 asks for activation with it, the timer fires, or a reload cancels them all. The
 pending ones sit in a growing array that is closed up in place.
 */
module ActivationTokens {
  import opened Options

  /** A token's string, compared by content only. */
  type Name = nat

  datatype Token = Token(name: Name, app: Option<Name>, timer: nat)

  datatype Outcome = Completed | TimedOut | Cancelled

  /** The pending array, the timers armed and the name each carries, the next timer id, and
      what has happened: tokens created and how tokens ended. */
  datatype State = State(pending: seq<Token>, armed: map<nat, Name>, next: nat,
                         created: seq<Name>, ended: seq<(Name, Outcome)>)

  const Empty := State([], map[], 1, [], [])

  /** An activation may carry no token, or one this compositor never made. */
  datatype Step = Create(name: Name, app: Option<Name>) | Activate(token: Option<Name>) | Fire(timer: nat) | CancelAll

  function Find(ts: seq<Token>, name: Name): (i: nat)
    ensures i <= |ts| && (i < |ts| ==> ts[i].name == name)
    ensures forall j | 0 <= j < i :: ts[j].name != name
  {
    if ts == [] || ts[0].name == name then 0 else 1 + Find(ts[1..], name)
  }

  function Closed<T>(xs: seq<T>, i: nat): seq<T>
    requires i < |xs|
  {
    xs[..i] + xs[i + 1..]
  }

  /** Removal of a named token, with what becomes of it. */
  function End(s: State, name: Name, how: Outcome): State {
    var i := Find(s.pending, name);
    if i == |s.pending| then s
    else s.(pending := Closed(s.pending, i), ended := s.ended + [(name, how)])
  }

  function Cancels(ts: seq<Token>): seq<(Name, Outcome)> {
    if ts == [] then [] else [(ts[0].name, Cancelled)] + Cancels(ts[1..])
  }

  /** Timers given to g_source_remove, one a pending token. */
  function Disarmed(armed: map<nat, Name>, ts: seq<Token>): map<nat, Name> {
    if ts == [] then armed else Disarmed(armed - {ts[0].timer}, ts[1..])
  }

  predicate Enabled(s: State, t: Step) {
    match t
    case Create(name, _) => name !in s.created
    case Fire(timer) => timer in s.armed
    case _ => true
  }

  function Take(s: State, t: Step): State
    requires Enabled(s, t)
  {
    match t
    case Create(name, app) =>
      State(s.pending + [Token(name, app, s.next)], s.armed[s.next := name], s.next + 1, s.created + [name], s.ended)
    case Activate(token) =>
      if token.None? || Find(s.pending, token.value) == |s.pending| then s
      else
        var hit := s.pending[Find(s.pending, token.value)];
        End(s, token.value, Completed).(armed := s.armed - {hit.timer})
    case Fire(timer) => End(s, s.armed[timer], TimedOut).(armed := s.armed - {timer})
    case CancelAll => s.(pending := [], armed := Disarmed(s.armed, s.pending), ended := s.ended + Cancels(s.pending))
  }

  predicate Along(s: State, ts: seq<Step>)
    decreases |ts|
  {
    ts == [] || (Enabled(s, ts[0]) && Along(Take(s, ts[0]), ts[1..]))
  }

  function Run(s: State, ts: seq<Step>): State
    requires Along(s, ts)
    decreases |ts|
  {
    if ts == [] then s else Run(Take(s, ts[0]), ts[1..])
  }

  // --- tokens and timers ---

  predicate Carries(ts: seq<Token>, timer: nat) {
    exists i | 0 <= i < |ts| :: ts[i].timer == timer
  }

  predicate AllDistinct(ts: seq<Token>) {
    forall i, j | 0 <= i < j < |ts| :: ts[i].timer != ts[j].timer && ts[i].name != ts[j].name
  }

  /** Pending tokens and armed timers are in bijection. */
  ghost predicate Paired(s: State) {
    && AllDistinct(s.pending)
    && (forall i | 0 <= i < |s.pending| ::
          s.pending[i].timer in s.armed && s.armed[s.pending[i].timer] == s.pending[i].name)
    && (forall t | t in s.armed :: t < s.next && Carries(s.pending, t))
  }

  predicate HasEnded(ended: seq<(Name, Outcome)>, name: Name) {
    exists i | 0 <= i < |ended| :: ended[i].0 == name
  }

  /** The names created and not ended yet, in order of creation. */
  function Open(created: seq<Name>, ended: seq<(Name, Outcome)>): seq<Name> {
    if created == [] then []
    else
      var last := created[|created| - 1];
      Open(created[..|created| - 1], ended) + if HasEnded(ended, last) then [] else [last]
  }

  function Names(ts: seq<Token>): (ns: seq<Name>)
    ensures |ns| == |ts| && forall i | 0 <= i < |ts| :: ns[i] == ts[i].name
  {
    if ts == [] then [] else Names(ts[..|ts| - 1]) + [ts[|ts| - 1].name]
  }

  predicate EndedOnce(created: seq<Name>, ended: seq<(Name, Outcome)>) {
    && (forall i | 0 <= i < |ended| :: ended[i].0 in created)
    && (forall i, j | 0 <= i < j < |ended| :: ended[i].0 != ended[j].0)
  }

  /** Each name was created once, ended at most once and only after it was created, and
      what is pending is what was created and has not ended, in order. */
  ghost predicate Accounted(s: State) {
    && (forall i, j | 0 <= i < j < |s.created| :: s.created[i] != s.created[j])
    && EndedOnce(s.created, s.ended)
    && Names(s.pending) == Open(s.created, s.ended)
  }

  ghost predicate Inv(s: State) { Paired(s) && Accounted(s) }

  lemma {:induction false} OpenOnly(created: seq<Name>, ended: seq<(Name, Outcome)>)
    ensures forall n :: n in Open(created, ended) <==> n in created && !HasEnded(ended, n)
  {
    if created != [] {
      OpenOnly(created[..|created| - 1], ended);
      assert forall n :: n in created <==> n in created[..|created| - 1] || n == created[|created| - 1];
    }
  }

  lemma {:induction false} OpenSnoc(created: seq<Name>, ended: seq<(Name, Outcome)>, name: Name)
    ensures Open(created + [name], ended) == Open(created, ended) + if HasEnded(ended, name) then [] else [name]
  {
    assert (created + [name])[..|created|] == created;
  }

  lemma EndedSnoc(ended: seq<(Name, Outcome)>, name: Name, how: Outcome, n: Name)
    ensures HasEnded(ended + [(name, how)], n) <==> HasEnded(ended, n) || n == name
  {
    var more := ended + [(name, how)];
    if HasEnded(ended, n) {
      var i :| 0 <= i < |ended| && ended[i].0 == n;
      assert more[i].0 == n;
    }
    if n == name { assert more[|ended|].0 == n; }
  }

  function Without(ns: seq<Name>, name: Name): seq<Name> {
    if ns == [] then []
    else Without(ns[..|ns| - 1], name) + if ns[|ns| - 1] == name then [] else [ns[|ns| - 1]]
  }

  lemma {:induction false} WithoutNone(ns: seq<Name>, name: Name)
    requires name !in ns
    ensures Without(ns, name) == ns
  {
    if ns != [] {
      assert forall n | n in ns[..|ns| - 1] :: n in ns;
      WithoutNone(ns[..|ns| - 1], name);
      assert ns[|ns| - 1] in ns;
    }
  }

  lemma {:induction false} WithoutSnoc(ns: seq<Name>, n: Name, name: Name)
    ensures Without(ns + [n], name) == Without(ns, name) + if n == name then [] else [n]
  {
    assert (ns + [n])[..|ns|] == ns;
  }

  /** Ending one more name takes it out of the open ones and moves nothing else. */
  lemma {:induction false} OpenWithout(created: seq<Name>, ended: seq<(Name, Outcome)>, name: Name, how: Outcome)
    ensures Open(created, ended + [(name, how)]) == Without(Open(created, ended), name)
    decreases |created|
  {
    if created != [] {
      var before, last := created[..|created| - 1], created[|created| - 1];
      OpenWithout(before, ended, name, how);
      EndedSnoc(ended, name, how, last);
      assert Open(created, ended + [(name, how)])
          == Without(Open(before, ended), name) + if HasEnded(ended, last) || last == name then [] else [last];
      if !HasEnded(ended, last) {
        WithoutSnoc(Open(before, ended), last, name);
        assert Open(created, ended) == Open(before, ended) + [last];
      } else {
        assert Open(created, ended) == Open(before, ended);
      }
    }
  }

  lemma {:induction false} ClosedIsWithout(ns: seq<Name>, i: nat)
    requires i < |ns| && forall j | 0 <= j < |ns| && j != i :: ns[j] != ns[i]
    ensures Without(ns, ns[i]) == Closed(ns, i)
    decreases |ns|
  {
    var before, last := ns[..|ns| - 1], ns[|ns| - 1];
    if i == |ns| - 1 {
      assert ns[i] !in before;
      WithoutNone(before, ns[i]);
      assert Closed(ns, i) == before;
    } else {
      ClosedIsWithout(before, i);
      assert Closed(ns, i) == Closed(before, i) + [last];
    }
  }

  lemma {:induction false} NamesClosed(ts: seq<Token>, i: nat)
    requires i < |ts|
    ensures Names(Closed(ts, i)) == Closed(Names(ts), i)
  {
  }

  lemma ClosedAt<T>(xs: seq<T>, i: nat, j: nat)
    requires i < |xs| && j < |xs| - 1
    ensures |Closed(xs, i)| == |xs| - 1 && Closed(xs, i)[j] == xs[if j < i then j else j + 1]
  {
  }

  lemma ClosedDistinct(ts: seq<Token>, i: nat)
    requires AllDistinct(ts) && i < |ts|
    ensures AllDistinct(Closed(ts, i))
    ensures forall j | 0 <= j < |ts| - 1 :: Closed(ts, i)[j] in ts && Closed(ts, i)[j].timer != ts[i].timer
  {
    var us := Closed(ts, i);
    forall j | 0 <= j < |us| ensures us[j] in ts && us[j].timer != ts[i].timer { ClosedAt(ts, i, j); }
    forall j, k | 0 <= j < k < |us| ensures us[j].timer != us[k].timer && us[j].name != us[k].name {
      ClosedAt(ts, i, j);
      ClosedAt(ts, i, k);
    }
  }

  lemma ClosedCarries(ts: seq<Token>, i: nat, timer: nat)
    requires i < |ts| && Carries(ts, timer) && timer != ts[i].timer
    ensures Carries(Closed(ts, i), timer)
  {
    var j :| 0 <= j < |ts| && ts[j].timer == timer;
    var k := if j < i then j else j - 1;
    ClosedAt(ts, i, k);
    assert Closed(ts, i)[k].timer == timer;
  }

  lemma EndPaired(s: State, i: nat, t: State)
    requires Paired(s) && i < |s.pending|
    requires t.pending == Closed(s.pending, i) && t.armed == s.armed - {s.pending[i].timer} && t.next == s.next
    ensures Paired(t)
  {
    ClosedDistinct(s.pending, i);
    forall u | u in t.armed ensures u < t.next && Carries(t.pending, u) { ClosedCarries(s.pending, i, u); }
    forall j | 0 <= j < |t.pending|
      ensures t.pending[j].timer in t.armed && t.armed[t.pending[j].timer] == t.pending[j].name
    {
      ClosedAt(s.pending, i, j);
    }
  }

  lemma FoundAt(s: State, i: nat)
    requires Paired(s) && i < |s.pending|
    ensures Find(s.pending, s.pending[i].name) == i
  {
  }

  lemma PendingIsOpen(s: State, i: nat)
    requires Accounted(s) && i < |s.pending|
    ensures s.pending[i].name in s.created && !HasEnded(s.ended, s.pending[i].name)
  {
    OpenOnly(s.created, s.ended);
    assert Names(s.pending)[i] in Names(s.pending);
  }

  lemma NamesLeft(s: State, i: nat, how: Outcome)
    requires Paired(s) && Accounted(s) && i < |s.pending|
    ensures Names(Closed(s.pending, i)) == Open(s.created, s.ended + [(s.pending[i].name, how)])
  {
    NamesClosed(s.pending, i);
    ClosedIsWithout(Names(s.pending), i);
    OpenWithout(s.created, s.ended, s.pending[i].name, how);
  }

  lemma EndOnce(created: seq<Name>, ended: seq<(Name, Outcome)>, name: Name, how: Outcome)
    requires EndedOnce(created, ended) && name in created && !HasEnded(ended, name)
    ensures EndedOnce(created, ended + [(name, how)])
  {
    forall j | 0 <= j < |ended| ensures ended[j].0 != name { assert !HasEnded(ended, name); }
  }

  lemma EndAccounted(s: State, i: nat, how: Outcome, t: State)
    requires Paired(s) && Accounted(s) && i < |s.pending|
    requires t.pending == Closed(s.pending, i) && t.created == s.created
             && t.ended == s.ended + [(s.pending[i].name, how)]
    ensures Accounted(t)
  {
    PendingIsOpen(s, i);
    NamesLeft(s, i, how);
    EndOnce(s.created, s.ended, s.pending[i].name, how);
  }

  /** One token leaves: the pairing and the accounts hold, and the order of the rest. */
  lemma EndKeeps(s: State, i: nat, how: Outcome)
    requires Inv(s) && i < |s.pending|
    ensures var name := s.pending[i].name;
            Find(s.pending, name) == i && Inv(End(s, name, how).(armed := s.armed - {s.pending[i].timer}))
  {
    FoundAt(s, i);
    var t := End(s, s.pending[i].name, how).(armed := s.armed - {s.pending[i].timer});
    EndPaired(s, i, t);
    EndAccounted(s, i, how, t);
  }

  lemma CreatePaired(s: State, name: Name, app: Option<Name>)
    requires Paired(s) && name !in s.created && forall i | 0 <= i < |s.pending| :: s.pending[i].name != name
    ensures Paired(Take(s, Create(name, app)))
  {
    var t := Take(s, Create(name, app));
    forall u | u in t.armed ensures u < t.next && Carries(t.pending, u) {
      if u == s.next {
        assert t.pending[|s.pending|].timer == u;
      } else {
        var j :| 0 <= j < |s.pending| && s.pending[j].timer == u;
        assert t.pending[j].timer == u;
      }
    }
  }

  lemma CreateAccounted(s: State, name: Name, app: Option<Name>)
    requires Accounted(s) && name !in s.created
    ensures Accounted(Take(s, Create(name, app)))
  {
    var t := Take(s, Create(name, app));
    OpenSnoc(s.created, s.ended, name);
    assert !HasEnded(s.ended, name);
    assert t.pending[..|t.pending| - 1] == s.pending;
  }

  /** The reload's loop, as one removal after another. */
  lemma CancelOne(s: State, t: State)
    requires s.pending != [] && t.pending == s.pending[1..] && t.armed == s.armed - {s.pending[0].timer}
    requires t.next == s.next && t.created == s.created && t.ended == s.ended + [(s.pending[0].name, Cancelled)]
    ensures Take(s, CancelAll) == Take(t, CancelAll)
  {
    assert s.ended + Cancels(s.pending) == t.ended + Cancels(t.pending);
    assert Disarmed(s.armed, s.pending) == Disarmed(t.armed, t.pending);
  }

  lemma {:induction false} CancelKeeps(s: State)
    requires Inv(s)
    ensures Inv(Take(s, CancelAll)) && Take(s, CancelAll).armed == map[]
    decreases |s.pending|
  {
    if s.pending == [] {
      assert s.armed == map[] by { assert forall u | u in s.armed :: Carries(s.pending, u); }
      assert Cancels(s.pending) == [] && s.ended + [] == s.ended;
      assert Take(s, CancelAll) == s;
    } else {
      EndKeeps(s, 0, Cancelled);
      var t := End(s, s.pending[0].name, Cancelled).(armed := s.armed - {s.pending[0].timer});
      assert t.pending == s.pending[1..];
      CancelOne(s, t);
      CancelKeeps(t);
    }
  }

  lemma StepKeeps(s: State, t: Step)
    requires Inv(s) && Enabled(s, t)
    ensures Inv(Take(s, t))
  {
    match t
    case Create(name, app) =>
      forall i | 0 <= i < |s.pending| ensures s.pending[i].name != name { PendingIsOpen(s, i); }
      CreatePaired(s, name, app);
      CreateAccounted(s, name, app);
    case Activate(token) =>
      if token.Some? && Find(s.pending, token.value) < |s.pending| {
        EndKeeps(s, Find(s.pending, token.value), Completed);
      }
    case Fire(timer) =>
      var i :| 0 <= i < |s.pending| && s.pending[i].timer == timer;
      EndKeeps(s, i, TimedOut);
    case CancelAll => CancelKeeps(s);
  }

  /** Over every interleaving: tokens pair with timers, each ends at most one way, and those
      pending are the ones created and not ended, in order of creation. */
  lemma {:induction false} RunsKeepAccounts(s: State, ts: seq<Step>)
    requires Inv(s) && Along(s, ts)
    ensures Inv(Run(s, ts))
    decreases |ts|
  {
    if ts != [] {
      StepKeeps(s, ts[0]);
      RunsKeepAccounts(Take(s, ts[0]), ts[1..]);
    }
  }

  /** Once a token has ended, a later activation with it, in any run, ends nothing. */
  lemma {:induction false} AnEndedTokenIsDead(s: State, ts: seq<Step>, name: Name)
    requires Inv(s) && HasEnded(s.ended, name) && Along(s, ts)
    ensures HasEnded(Run(s, ts).ended, name)
    ensures Take(Run(s, ts), Activate(Some(name))) == Run(s, ts)
    decreases |ts|
  {
    if ts == [] {
      OpenOnly(s.created, s.ended);
      var i := Find(s.pending, name);
      if i < |s.pending| { PendingIsOpen(s, i); }
    } else {
      StepKeeps(s, ts[0]);
      var i :| 0 <= i < |s.ended| && s.ended[i].0 == name;
      assert Take(s, ts[0]).ended[i].0 == name;
      AnEndedTokenIsDead(Take(s, ts[0]), ts[1..], name);
    }
  }

  lemma EveryTimerHasAToken(s: State, timer: nat)
    requires Paired(s) && timer in s.armed
    ensures Find(s.pending, s.armed[timer]) < |s.pending|
  {
    var i :| 0 <= i < |s.pending| && s.pending[i].timer == timer;
    FoundAt(s, i);
  }

  lemma TimersAreKnown(s: State, timer: nat)
    requires timer in s.armed
    ensures Inv(s) ==> Find(s.pending, s.armed[timer]) < |s.pending|
  {
    if Inv(s) { EveryTimerHasAToken(s, timer); }
  }

  // --- the array ---

  class Tokens {
    var slots: array<Token>
    var len: nat
    var armed: map<nat, Name>
    var next: nat
    ghost var created: seq<Name>
    ghost var ended: seq<(Name, Outcome)>

    ghost predicate Valid()
      reads this
    {
      len <= slots.Length
    }

    ghost function Model(): State
      requires Valid()
      reads this, slots
    {
      State(slots[..len], armed, next, created, ended)
    }

    constructor ()
      ensures Valid() && Model() == Empty && fresh(slots)
    {
      slots, len, armed, next := new Token[0], 0, map[], 1;
      created, ended := [], [];
    }

    /** Room for one more: 8 slots at first, then twice as many. */
    method Reserve()
      requires Valid()
      modifies this`slots
      ensures len < slots.Length && slots[..len] == old(slots[..len])
      ensures slots == old(slots)
              || (fresh(slots) && slots.Length == if old(slots.Length) == 0 then 8 else 2 * old(slots.Length))
    {
      if len >= slots.Length {
        var grown := new Token[if slots.Length == 0 then 8 else slots.Length * 2];
        forall i | 0 <= i < len { grown[i] := slots[i]; }
        assert grown[..len] == slots[..len];
        slots := grown;
      }
    }

    method TokenCreate(name: Name, app: Option<Name>)
      requires Valid() && name !in created
      modifies this, slots
      ensures Valid() && Model() == Take(old(Model()), Create(name, app))
      ensures len == old(len) + 1 && slots[len - 1] == Token(name, app, old(next))
      ensures slots == old(slots) || fresh(slots)
    {
      ghost var was := slots[..len];
      Reserve();
      slots[len] := Token(name, app, next);
      len := len + 1;
      armed, next, created := armed[next := name], next + 1, created + [name];
      assert slots[..len] == was + [slots[len - 1]];
    }

    method FindToken(name: Name) returns (i: nat)
      requires Valid()
      ensures i == Find(slots[..len], name)
    {
      i := 0;
      while i < len && slots[i].name != name
        invariant i <= len && forall j | 0 <= j < i :: slots[j].name != name
      {
        i := i + 1;
      }
      assert i < len ==> slots[..len][i].name == name;
    }

    /** memmove over the slot. */
    method CloseUp(i: nat)
      requires Valid() && i < len
      modifies this`len, slots
      ensures Valid() && len == old(len) - 1 && slots[..len] == Closed(old(slots[..len]), i)
    {
      ghost var was := slots[..len];
      var n := len - 1;
      for j := i to n
        invariant len == n + 1
        invariant forall k | 0 <= k < i :: slots[k] == was[k]
        invariant forall k | i <= k < j :: slots[k] == was[k + 1]
        invariant forall k | j <= k < len :: slots[k] == was[k]
      {
        slots[j] := slots[j + 1];
      }
      len := n;
    }

    /** activation_token_cleanup: the timer goes with the token; an unknown name changes nothing. */
    method TokenCleanup(name: Name)
      requires Valid()
      modifies this`len, this`armed, this`ended, slots
      ensures Valid() && Model() == Take(old(Model()), Activate(Some(name)))
    {
      var i := FindToken(name);
      if i < len {
        armed := armed - {slots[i].timer};
        CloseUp(i);
        ended := ended + [(name, Completed)];
      }
    }

    /** urgent: the context Lua hears says whether the token was one of the pending. */
    method Urgent(token: Option<Name>) returns (matched: bool)
      requires Valid()
      modifies this`len, this`armed, this`ended, slots
      ensures Valid() && Model() == Take(old(Model()), Activate(token))
      ensures matched <==> token.Some? && old(Find(slots[..len], token.value) < len)
    {
      matched := false;
      if token.Some? {
        var i := FindToken(token.value);
        if i < len {
          matched := true;
          TokenCleanup(token.value);
        }
      }
    }

    /** The timer is one-shot: GLib drops it when the callback returns. */
    method TokenTimeout(timer: nat) returns (signalled: bool)
      requires Valid() && timer in armed
      modifies this`len, this`armed, this`ended, slots
      ensures Valid() && Model() == Take(old(Model()), Fire(timer))
      ensures old(Inv(Model())) ==> signalled
      ensures signalled <==> old(Find(slots[..len], armed[timer]) < len)
    {
      var name := armed[timer];
      TimersAreKnown(Model(), timer);
      var i := FindToken(name);
      signalled := false;
      if i < len {
        signalled := true;
        CloseUp(i);
        ended := ended + [(name, TimedOut)];
      }
      armed := armed - {timer};
    }

    method CancelPending()
      requires Valid()
      modifies this`len, this`armed, this`ended
      ensures Valid() && Model() == Take(old(Model()), CancelAll)
    {
      ghost var all := slots[..len];
      var n := len;
      assert all[0..] == all;
      for i := 0 to n
        invariant len == n && ended == old(ended)
        invariant Disarmed(armed, all[i..]) == Disarmed(old(armed), all)
      {
        assert all[i..][0] == slots[i] && all[i..][1..] == all[i + 1..];
        armed := armed - {slots[i].timer};
      }
      assert all[n..] == [] && armed == Disarmed(old(armed), all);
      ended := ended + Cancels(all);
      len := 0;
      assert slots[..len] == [];
    }
  }
}

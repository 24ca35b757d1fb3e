/**
 What the queue means: the log of operations between two drains, and the
 sequence of messages that Lua must see for it.
 */
module EventLog {

  datatype EventType = ObjectEvent | ClassEvent | GlobalEvent

  const SIG_MOUSE_ENTER := 13
  const SIG_MOUSE_LEAVE := 14
  const SIG_MOUSE_MOVE := 15
  const SIG_COUNT := 51

  /** One delivery to Lua: the receiver, the signal and its arguments. */
  datatype Msg = Msg(kind: EventType, signal: nat, obj: int, args: seq<int>, cls: nat)

  const NO_OBJECT := -1

  /** A producer call. Emit stands for every producer except the coalescing one. */
  datatype Op = Emit(msg: Msg) | Move(obj: nat, x: int, y: int)

  /** A producer call as its callers make it: object events name an object, the
      others do not, and only some_event_queue_move uses the move signal. */
  predicate WellFormed(op: Op) {
    op.Emit? ==>
      && op.msg.signal != SIG_MOUSE_MOVE
      && (op.msg.kind == ObjectEvent <==> op.msg.obj >= 0)
      && (op.msg.kind != ObjectEvent ==> op.msg.obj == NO_OBJECT)
      && (op.msg.kind != ClassEvent ==> op.msg.cls == 0)
  }

  predicate WellFormedLog(log: seq<Op>) {
    forall i | 0 <= i < |log| :: WellFormed(log[i])
  }

  function MoveMsg(o: nat, x: int, y: int): Msg {
    Msg(ObjectEvent, SIG_MOUSE_MOVE, o, [x, y], 0)
  }

  predicate IsMove(m: Msg) {
    m.signal == SIG_MOUSE_MOVE
  }

  /** Every move of run, which holds only moves: one message an object, in order
      of first appearance, with that object's last coordinates. */
  function RunMessages(run: seq<Op>): seq<Msg>
    requires forall i | 0 <= i < |run| :: run[i].Move?
    decreases |run|
  {
    if run == [] then []
    else
      var last := LastOf(run, run[0].obj);
      [MoveMsg(run[0].obj, last.x, last.y)] + RunMessages(Without(run, run[0].obj))
  }

  /** The last move of o in the run. */
  function LastOf(run: seq<Op>, o: nat): (m: Op)
    requires forall i | 0 <= i < |run| :: run[i].Move?
    requires exists i :: 0 <= i < |run| && run[i].obj == o
    ensures m in run && m.Move? && m.obj == o
  {
    var n := |run| - 1;
    if run[n].obj == o then run[n] else assert run[..n] + [run[n]] == run; LastOf(run[..n], o)
  }

  function Without(run: seq<Op>, o: nat): (r: seq<Op>)
    requires forall i | 0 <= i < |run| :: run[i].Move?
    ensures forall i | 0 <= i < |r| :: r[i].Move? && r[i].obj != o && r[i] in run
    ensures |r| <= |run| && (run != [] && run[0].obj == o ==> |r| < |run|)
  {
    if run == [] then []
    else if run[0].obj == o then Without(run[1..], o)
    else [run[0]] + Without(run[1..], o)
  }

  /** The length of the run of moves a log starts with. */
  function RunLength(log: seq<Op>): (n: nat)
    ensures n <= |log| && (forall i | 0 <= i < n :: log[i].Move?)
    ensures n < |log| ==> log[n].Emit?
  {
    if log == [] || log[0].Emit? then 0 else 1 + RunLength(log[1..])
  }

  /** What Lua must see for a log: everything but the moves unchanged and in
      place, and each maximal run of moves folded. */
  function Coalesce(log: seq<Op>): seq<Msg>
    decreases |log|
  {
    if log == [] then []
    else if log[0].Emit? then [log[0].msg] + Coalesce(log[1..])
    else var n := RunLength(log); RunMessages(log[..n]) + Coalesce(log[n..])
  }

  /** The newest message of o among the moves at the end of c, or -1. */
  function FindMove(c: seq<Msg>, o: nat): (j: int)
    ensures -1 <= j < |c|
    ensures j >= 0 ==> IsMove(c[j]) && c[j].obj == o
  {
    if c == [] then -1
    else
      var n := |c| - 1;
      if !IsMove(c[n]) then -1
      else if c[n].obj == o then n
      else FindMove(c[..n], o)
  }

  /** One producer call on the pending messages. */
  function Push(c: seq<Msg>, op: Op): seq<Msg> {
    match op
    case Emit(m) => c + [m]
    case Move(o, x, y) =>
      var j := FindMove(c, o);
      if j >= 0 then c[j := MoveMsg(o, x, y)] else c + [MoveMsg(o, x, y)]
  }

  function PushAll(c: seq<Msg>, log: seq<Op>): (c': seq<Msg>)
    ensures |c| <= |c'|
  {
    if log == [] then c else Push(PushAll(c, log[..|log| - 1]), log[|log| - 1])
  }

  lemma {:induction false} PushAllConcat(c: seq<Msg>, a: seq<Op>, b: seq<Op>)
    ensures PushAll(c, a + b) == PushAll(PushAll(c, a), b)
    decreases |b|
  {
    if b == [] {
      assert a + b == a;
    } else {
      var n := |b| - 1;
      assert (a + b)[..|a + b| - 1] == a + b[..n];
      PushAllConcat(c, a, b[..n]);
    }
  }

  // --- the incremental queue computes Coalesce ---

  lemma {:induction false} FindMoveAfter(a: seq<Msg>, c: seq<Msg>, o: nat)
    ensures FindMove(a + c, o) ==
            if FindMove(c, o) >= 0 then |a| + FindMove(c, o)
            else if forall i | 0 <= i < |c| :: IsMove(c[i]) then FindMove(a, o)
            else -1
    decreases |c|
  {
    if c == [] {
      assert a + c == a;
    } else {
      var n := |c| - 1;
      assert (a + c)[..|a + c| - 1] == a + c[..n];
      assert (a + c)[|a + c| - 1] == c[n];
      if IsMove(c[n]) && c[n].obj != o {
        FindMoveAfter(a, c[..n], o);
        assert (forall i | 0 <= i < |c| :: IsMove(c[i])) <==> (forall i | 0 <= i < n :: IsMove(c[..n][i]));
      }
    }
  }

  /** A call on a + c acts on c alone when the scan does not get back into a. */
  lemma {:induction false} PushAfter(a: seq<Msg>, c: seq<Msg>, op: Op)
    requires op.Move? && FindMove(c, op.obj) < 0 ==>
               FindMove(a, op.obj) < 0 || exists i :: 0 <= i < |c| && !IsMove(c[i])
    ensures Push(a + c, op) == a + Push(c, op)
  {
    if op.Move? {
      FindMoveAfter(a, c, op.obj);
    }
  }

  lemma {:induction false} RunMessagesAreMoves(run: seq<Op>)
    requires forall i | 0 <= i < |run| :: run[i].Move?
    ensures forall m | m in RunMessages(run) :: IsMove(m) && exists i :: 0 <= i < |run| && run[i].obj == m.obj
    decreases |run|
  {
    if run != [] {
      var w := Without(run, run[0].obj);
      RunMessagesAreMoves(w);
      forall m | m in RunMessages(run) ensures IsMove(m) && exists i :: 0 <= i < |run| && run[i].obj == m.obj {
        if m in RunMessages(w) {
          var i :| 0 <= i < |w| && w[i].obj == m.obj;
          assert w[i] in run;
        }
      }
    }
  }

  lemma {:induction false} AbsentFromRun(c: seq<Msg>, o: nat)
    requires forall m | m in c :: m.obj != o
    ensures FindMove(c, o) == -1
    decreases |c|
  {
    if c != [] {
      AbsentFromRun(c[..|c| - 1], o);
    }
  }

  lemma {:induction false} WithoutSnoc(run: seq<Op>, m: Op, o: nat)
    requires m.Move? && forall i | 0 <= i < |run| :: run[i].Move?
    ensures Without(run + [m], o) == if m.obj == o then Without(run, o) else Without(run, o) + [m]
    decreases |run|
  {
    if run != [] {
      assert (run + [m])[1..] == run[1..] + [m];
      WithoutSnoc(run[1..], m, o);
    }
  }

  lemma FoldsIntoHead(head: Msg, rest: seq<Msg>, m: Op)
    requires m.Move? && IsMove(head) && head.obj == m.obj
    requires forall x | x in rest :: IsMove(x) && x.obj != m.obj
    ensures Push([head] + rest, m) == [MoveMsg(m.obj, m.x, m.y)] + rest
  {
    AbsentFromRun(rest, m.obj);
    FindMoveAfter([head], rest, m.obj);
    assert FindMove([head], m.obj) == 0;
    assert ([head] + rest)[0 := MoveMsg(m.obj, m.x, m.y)] == [MoveMsg(m.obj, m.x, m.y)] + rest;
  }

  lemma PassesHead(head: Msg, rest: seq<Msg>, m: Op)
    requires m.Move? && head.obj != m.obj
    ensures Push([head] + rest, m) == [head] + Push(rest, m)
  {
    AbsentFromRun([head], m.obj);
    PushAfter([head], rest, m);
  }

  lemma {:induction false} RunSnoc(run: seq<Op>, m: Op)
    requires m.Move? && forall i | 0 <= i < |run| :: run[i].Move?
    ensures RunMessages(run + [m]) == Push(RunMessages(run), m)
    decreases |run|
  {
    var all := run + [m];
    if run == [] {
      assert all == [m] && Without([m], m.obj) == [];
    } else {
      var o, w := run[0].obj, Without(run, run[0].obj);
      var head := MoveMsg(o, LastOf(run, o).x, LastOf(run, o).y);
      WithoutSnoc(run, m, o);
      RunMessagesAreMoves(w);
      LastOfSnoc(run, m, o);
      if m.obj == o {
        forall x | x in RunMessages(w) ensures IsMove(x) && x.obj != o {
          var i :| 0 <= i < |w| && w[i].obj == x.obj;
        }
        FoldsIntoHead(head, RunMessages(w), m);
      } else {
        RunSnoc(w, m);
        PassesHead(head, RunMessages(w), m);
      }
    }
  }

  lemma {:induction false} LastOfSnoc(run: seq<Op>, m: Op, o: nat)
    requires m.Move? && forall i | 0 <= i < |run| :: run[i].Move?
    requires exists i :: 0 <= i < |run| && run[i].obj == o
    ensures exists i :: 0 <= i < |run + [m]| && (run + [m])[i].obj == o
    ensures LastOf(run + [m], o) == if m.obj == o then m else LastOf(run, o)
  {
    var i :| 0 <= i < |run| && run[i].obj == o;
    assert (run + [m])[i].obj == o;
    assert (run + [m])[..|run|] == run;
  }

  lemma {:induction false} RunLengthSnoc(log: seq<Op>, op: Op)
    ensures RunLength(log + [op]) ==
            if RunLength(log) < |log| || op.Emit? then RunLength(log) else |log| + 1
  {
    if log == [] {
      assert [op][1..] == [];
    } else if log[0].Move? {
      assert (log + [op])[1..] == log[1..] + [op];
      RunLengthSnoc(log[1..], op);
    }
  }

  lemma {:induction false} CoalesceHead(log: seq<Op>)
    requires WellFormedLog(log) && log != [] && log[0].Emit?
    ensures Coalesce(log) != [] && !IsMove(Coalesce(log)[0])
  {
    assert WellFormed(log[0]);
  }

  lemma CoalesceOne(op: Op)
    ensures Coalesce([op]) == Push([], op)
  {
    if op.Move? {
      RunLengthSnoc([], op);
      assert [] + [op] == [op] && [op][..1] == [op];
      RunSnoc([], op);
    }
  }

  lemma {:induction false} CoalesceSnoc(log: seq<Op>, op: Op)
    requires WellFormedLog(log) && WellFormed(op)
    ensures Coalesce(log + [op]) == Push(Coalesce(log), op)
    decreases |log|
  {
    var all := log + [op];
    if log == [] {
      assert all == [op];
      CoalesceOne(op);
    } else if log[0].Emit? {
      assert all[1..] == log[1..] + [op];
      CoalesceSnoc(log[1..], op);
      assert WellFormed(log[0]);
      PushAfter([log[0].msg], Coalesce(log[1..]), op);
    } else if RunLength(log) < |log| {
      CoalesceSnocAfterRun(log, op);
    } else {
      CoalesceSnocInRun(log, op);
    }
  }

  lemma {:induction false} CoalesceSnocAfterRun(log: seq<Op>, op: Op)
    requires WellFormedLog(log) && WellFormed(op)
    requires 0 < RunLength(log) < |log|
    ensures Coalesce(log + [op]) == Push(Coalesce(log), op)
    decreases |log|, 0
  {
    var n := RunLength(log);
    RunLengthSnoc(log, op);
    var tail := log[n..];
    assert (log + [op])[..n] == log[..n] && (log + [op])[n..] == tail + [op];
    CoalesceSnoc(tail, op);
    CoalesceHead(tail);
    assert !IsMove(Coalesce(tail)[0]);
    PushAfter(RunMessages(log[..n]), Coalesce(tail), op);
  }

  lemma {:induction false} CoalesceSnocInRun(log: seq<Op>, op: Op)
    requires 0 < RunLength(log) == |log|
    ensures Coalesce(log + [op]) == Push(Coalesce(log), op)
  {
    var all, n := log + [op], |log|;
    RunLengthSnoc(log, op);
    assert log[..n] == log && log[n..] == [];
    assert Coalesce(log) == RunMessages(log);
    if op.Emit? {
      assert all[..n] == log && all[n..] == [op];
      CoalesceOne(op);
    } else {
      assert all[..n + 1] == all && all[n + 1..] == [];
      RunSnoc(log, op);
    }
  }

  /** Pushing call after call is coalescing the whole log. */
  lemma {:induction false} PushAllIsCoalesce(log: seq<Op>)
    requires WellFormedLog(log)
    ensures PushAll([], log) == Coalesce(log)
    decreases |log|
  {
    if log != [] {
      var n := |log| - 1;
      PushAllIsCoalesce(log[..n]);
      CoalesceSnoc(log[..n], log[n]);
      assert log[..n] + [log[n]] == log;
    }
  }

  // --- what Coalesce keeps ---

  function EmittedBy(log: seq<Op>): seq<Msg> {
    if log == [] then []
    else (if log[0].Emit? then [log[0].msg] else []) + EmittedBy(log[1..])
  }

  function NonMoves(c: seq<Msg>): seq<Msg> {
    if c == [] then [] else (if IsMove(c[0]) then [] else [c[0]]) + NonMoves(c[1..])
  }

  lemma {:induction false} NonMovesConcat(a: seq<Msg>, b: seq<Msg>)
    ensures NonMoves(a + b) == NonMoves(a) + NonMoves(b)
  {
    if a == [] {
      assert a + b == b;
    } else {
      assert (a + b)[1..] == a[1..] + b;
      NonMovesConcat(a[1..], b);
    }
  }

  lemma {:induction false} NonMovesOfRun(c: seq<Msg>)
    requires forall m | m in c :: IsMove(m)
    ensures NonMoves(c) == []
  {
    if c != [] { NonMovesOfRun(c[1..]); }
  }

  lemma {:induction false} EmittedAfterRun(log: seq<Op>, n: nat)
    requires n <= |log| && forall i | 0 <= i < n :: log[i].Move?
    ensures EmittedBy(log) == EmittedBy(log[n..])
    decreases n
  {
    if n == 0 {
      assert log[0..] == log;
    } else {
      EmittedAfterRun(log[1..], n - 1);
      assert log[1..][n - 1..] == log[n..];
    }
  }

  /** Coalescing touches moves only: every other message is there, once, in order. */
  lemma {:induction false} CoalesceKeepsOthers(log: seq<Op>)
    requires WellFormedLog(log)
    ensures NonMoves(Coalesce(log)) == EmittedBy(log)
    decreases |log|
  {
    if log != [] {
      if log[0].Emit? {
        assert WellFormed(log[0]);
        CoalesceKeepsOthers(log[1..]);
        var c := [log[0].msg] + Coalesce(log[1..]);
        assert c[1..] == Coalesce(log[1..]);
      } else {
        var n := RunLength(log);
        CoalesceKeepsOthers(log[n..]);
        EmittedAfterRun(log, n);
        RunMessagesAreMoves(log[..n]);
        NonMovesOfRun(RunMessages(log[..n]));
        NonMovesConcat(RunMessages(log[..n]), Coalesce(log[n..]));
      }
    }
  }

  /** Some move of o comes before every move of p. */
  predicate AppearsBefore(run: seq<Op>, o: int, p: int)
    requires forall i | 0 <= i < |run| :: run[i].Move?
  {
    exists a :: 0 <= a < |run| && run[a].obj == o && forall b | 0 <= b <= a :: run[b].obj != p
  }

  /** The objects of a run, in order of first appearance. */
  function Movers(run: seq<Op>): (os: seq<nat>)
    requires forall i | 0 <= i < |run| :: run[i].Move?
  {
    if run == [] then []
    else
      var os, o := Movers(run[..|run| - 1]), run[|run| - 1].obj;
      if o in os then os else os + [o]
  }

  lemma {:induction false} MoversAreAll(run: seq<Op>, o: int)
    requires forall i | 0 <= i < |run| :: run[i].Move?
    ensures o in Movers(run) <==> exists i :: 0 <= i < |run| && run[i].obj == o
    decreases |run|
  {
    if run != [] {
      var n := |run| - 1;
      MoversAreAll(run[..n], o);
      assert (exists i :: 0 <= i < |run| && run[i].obj == o)
             <==> run[n].obj == o || exists i :: 0 <= i < n && run[..n][i].obj == o;
    }
  }

  lemma AppearsBeforeToo(run: seq<Op>, n: nat, o: int, p: int)
    requires (forall i | 0 <= i < |run| :: run[i].Move?) && n <= |run| && AppearsBefore(run[..n], o, p)
    ensures AppearsBefore(run, o, p)
  {
    var a :| 0 <= a < n && run[..n][a].obj == o && forall b | 0 <= b <= a :: run[..n][b].obj != p;
    forall b | 0 <= b <= a ensures run[b].obj != p { assert run[b] == run[..n][b]; }
    assert run[a].obj == o;
  }

  /** Of two objects of a run, the first one appeared first. */
  lemma {:induction false} MoversInOrder(run: seq<Op>, i: nat, j: nat)
    requires (forall k | 0 <= k < |run| :: run[k].Move?) && i < j < |Movers(run)|
    ensures AppearsBefore(run, Movers(run)[i], Movers(run)[j])
    decreases |run|
  {
    var init := run[..|run| - 1];
    var os := Movers(init);
    if j < |os| {
      MoversInOrder(init, i, j);
    } else {
      MoversAreAll(init, os[i]);
      MoversAreAll(init, Movers(run)[j]);
      var a :| 0 <= a < |init| && init[a].obj == os[i];
      assert forall b | 0 <= b <= a :: init[b].obj != Movers(run)[j];
    }
    AppearsBeforeToo(run, |run| - 1, Movers(run)[i], Movers(run)[j]);
  }

  lemma {:induction false} FindsMover(c: seq<Msg>, o: nat)
    requires forall m | m in c :: IsMove(m)
    ensures FindMove(c, o) >= 0 <==> exists k :: 0 <= k < |c| && c[k].obj == o
    decreases |c|
  {
    if c != [] {
      var n := |c| - 1;
      assert forall m | m in c[..n] :: m in c;
      assert c[n] in c;
      FindsMover(c[..n], o);
      assert (exists k :: 0 <= k < |c| && c[k].obj == o)
             <==> c[n].obj == o || exists k :: 0 <= k < n && c[..n][k].obj == o;
    }
  }

  /** The messages of a run are those of its objects, in their order. */
  lemma {:induction false} MessagesOfMovers(run: seq<Op>)
    requires forall i | 0 <= i < |run| :: run[i].Move?
    ensures |RunMessages(run)| == |Movers(run)|
    ensures forall k | 0 <= k < |Movers(run)| :: RunMessages(run)[k].obj == Movers(run)[k]
    decreases |run|
  {
    if run != [] {
      var init, m := run[..|run| - 1], run[|run| - 1];
      var c, os := RunMessages(init), Movers(init);
      assert run == init + [m];
      MessagesOfMovers(init);
      RunSnoc(init, m);
      RunMessagesAreMoves(init);
      FindsMover(c, m.obj);
      assert m.obj in os <==> FindMove(c, m.obj) >= 0 by {
        if m.obj in os {
          var k :| 0 <= k < |os| && os[k] == m.obj;
          assert c[k].obj == m.obj;
        }
        if k :| 0 <= k < |c| && c[k].obj == m.obj {
          assert os[k] == m.obj;
        }
      }
    }
  }

  /** A run of moves leaves one message for each object that moved, in order of first
      appearance, and it carries the last coordinates. */
  lemma {:induction false} RunHasOneMessageAnObject(run: seq<Op>)
    requires forall i | 0 <= i < |run| :: run[i].Move?
    ensures forall i, j | 0 <= i < j < |RunMessages(run)| :: RunMessages(run)[i].obj != RunMessages(run)[j].obj
    ensures forall i, j | 0 <= i < j < |RunMessages(run)| ::
              AppearsBefore(run, RunMessages(run)[i].obj, RunMessages(run)[j].obj)
    ensures forall m | m in RunMessages(run) :: IsMove(m) && exists i :: 0 <= i < |run| && run[i].obj == m.obj
    ensures forall k | 0 <= k < |run| && forall l | k < l < |run| :: run[l].obj != run[k].obj ::
              MoveMsg(run[k].obj, run[k].x, run[k].y) in RunMessages(run)
    decreases |run|
  {
    RunMessagesAreMoves(run);
    MessagesOfMovers(run);
    forall i, j | 0 <= i < j < |RunMessages(run)|
      ensures AppearsBefore(run, RunMessages(run)[i].obj, RunMessages(run)[j].obj)
    {
      MoversInOrder(run, i, j);
    }
    if run != [] {
      var o := run[0].obj;
      var w := Without(run, o);
      RunHasOneMessageAnObject(w);
      RunMessagesAreMoves(w);
      forall k | 0 <= k < |run| && forall l | k < l < |run| :: run[l].obj != run[k].obj
        ensures MoveMsg(run[k].obj, run[k].x, run[k].y) in RunMessages(run)
      {
        if run[k].obj == o {
          LastIsLast(run, k);
        } else {
          var j := WithoutKeepsLast(run, o, k);
          assert MoveMsg(w[j].obj, w[j].x, w[j].y) in RunMessages(w);
        }
      }
    }
  }

  lemma {:induction false} LastIsLast(run: seq<Op>, k: nat)
    requires forall i | 0 <= i < |run| :: run[i].Move?
    requires k < |run| && forall l | k < l < |run| :: run[l].obj != run[k].obj
    ensures LastOf(run, run[k].obj) == run[k]
  {
    var n := |run| - 1;
    if k < n {
      assert run[..n] + [run[n]] == run;
      LastIsLast(run[..n], k);
    }
  }

  lemma {:induction false} WithoutKeepsLast(run: seq<Op>, o: nat, k: nat) returns (j: nat)
    requires forall i | 0 <= i < |run| :: run[i].Move?
    requires k < |run| && run[k].obj != o && forall l | k < l < |run| :: run[l].obj != run[k].obj
    ensures j < |Without(run, o)| && Without(run, o)[j] == run[k]
    ensures forall l | j < l < |Without(run, o)| :: Without(run, o)[l].obj != run[k].obj
    decreases |run|
  {
    if k == 0 {
      j := 0;
      var w := Without(run[1..], o);
      forall l | 0 < l < |w| + 1 ensures Without(run, o)[l].obj != run[k].obj {
        assert w[l - 1] in run[1..];
        var p :| 0 <= p < |run[1..]| && run[1..][p] == w[l - 1];
        assert run[p + 1] == w[l - 1];
      }
    } else {
      j := WithoutKeepsLast(run[1..], o, k - 1);
      if run[0].obj != o { j := j + 1; }
    }
  }
}

/** The queue as the C code keeps it: a growing array, a length and a registry. */
module EventBuffer {
  import R = LuaRegistry
  import opened EventLog
  import opened EventQueue

  class Queue {
    var buf: array<Event>     // queue_buf, queue_cap == buf.Length
    var len: nat              // queue_len
    var reg: R.Registry

    ghost predicate Valid()
      reads this, buf
    {
      len <= buf.Length
    }

    ghost function Model(): State
      requires Valid()
      reads this, buf
    {
      State(buf[..len], reg)
    }

    constructor (registry: R.Registry)
      ensures Valid() && fresh(buf) && buf.Length == 0 && Model() == State([], registry)
    {
      buf := new Event[0];
      len := 0;
      reg := registry;
    }

    method Grow()
      requires Valid()
      modifies this`buf
      ensures Valid() && fresh(buf) && buf.Length > old(buf.Length) && Model() == old(Model())
      ensures buf.Length == if old(buf.Length) == 0 then QUEUE_INITIAL_CAP else 2 * old(buf.Length)
    {
      var next := new Event[if buf.Length == 0 then QUEUE_INITIAL_CAP else buf.Length * 2];
      forall i | 0 <= i < len { next[i] := buf[i]; }
      assert next[..len] == buf[..len];
      buf := next;
    }

    /** A slot at the end, holding an event without receiver and arguments. */
    method PushEvent(kind: EventType, cls: nat, signal: nat)
      requires Valid()
      modifies this`buf, this`len, buf
      ensures Valid() && (buf == old(buf) || fresh(buf)) && len == old(len) + 1
      ensures buf[..len] == old(buf[..len]) + [Event(kind, signal, R.NOREF, 0, R.NOREF, cls)]
      ensures reg == old(reg)
    {
      if len >= buf.Length {
        Grow();
      }
      buf[len] := Event(kind, signal, R.NOREF, 0, R.NOREF, cls);
      len := len + 1;
    }

    method Ref(v: R.Value) returns (ref: int)
      modifies this`reg
      ensures ref == R.Fresh(old(reg)) && reg == R.Ref(old(reg), v)
    {
      ref := R.Fresh(reg);
      reg := R.Ref(reg, v);
    }

    /** Captures the top nargs values of the caller's stack in one table and pops
        them. The table lies on top of them while they are copied. What is captured
        reads back as those values, in their order. */
    method CaptureArgs(stack: seq<int>, nargs: nat) returns (ref: int, rest: seq<int>)
      requires nargs <= |stack|
      modifies this`reg
      ensures rest == stack[..|stack| - nargs]
      ensures ref == CaptureRef(old(reg), stack[|stack| - nargs..])
      ensures reg == Capture(old(reg), stack[|stack| - nargs..])
      ensures old(R.Valid(reg)) ==> R.Valid(reg) && Unpack(reg.live, ref, nargs) == stack[|stack| - nargs..]
    {
      if nargs == 0 { return R.NOREF, stack; }
      var table := [];
      for i := 0 to nargs
        invariant table == stack[|stack| - nargs..][..i]
      {
        table := table + [stack[|stack| + 1 - (nargs + 1) + i]];
      }
      assert table == stack[|stack| - nargs..];
      ref := Ref(R.Args(table));
      rest := stack[..|stack| - nargs];
    }

    method Signal(obj: nat, signal: nat, stack: seq<int>, nargs: nat) returns (rest: seq<int>)
      requires Valid() && nargs <= |stack|
      modifies this, buf
      ensures Valid() && (buf == old(buf) || fresh(buf)) && rest == stack[..|stack| - nargs]
      ensures Model() == Enqueue(old(Model()), Emit(Msg(ObjectEvent, signal, obj, stack[|stack| - nargs..], 0)))
    {
      PushEvent(ObjectEvent, 0, signal);
      var e := len - 1;
      var ref := Ref(R.Object(obj));
      buf[e] := buf[e].(nargs := nargs, objectRef := ref);
      ref, rest := CaptureArgs(stack, nargs);
      buf[e] := buf[e].(argsRef := ref);
    }

    method Signal0(obj: nat, signal: nat)
      requires Valid()
      modifies this, buf
      ensures Valid() && (buf == old(buf) || fresh(buf))
      ensures Model() == Enqueue(old(Model()), Emit(Msg(ObjectEvent, signal, obj, [], 0)))
    {
      PushEvent(ObjectEvent, 0, signal);
      var ref := Ref(R.Object(obj));
      buf[len - 1] := buf[len - 1].(objectRef := ref);
    }

    method Global(signal: nat)
      requires Valid()
      modifies this, buf
      ensures Valid() && (buf == old(buf) || fresh(buf))
      ensures Model() == Enqueue(old(Model()), Emit(Msg(GlobalEvent, signal, NO_OBJECT, [], 0)))
    {
      PushEvent(GlobalEvent, 0, signal);
    }

    method GlobalArgs(signal: nat, stack: seq<int>, nargs: nat) returns (rest: seq<int>)
      requires Valid() && nargs <= |stack|
      modifies this, buf
      ensures Valid() && (buf == old(buf) || fresh(buf)) && rest == stack[..|stack| - nargs]
      ensures Model() == Enqueue(old(Model()), Emit(Msg(GlobalEvent, signal, NO_OBJECT, stack[|stack| - nargs..], 0)))
    {
      PushEvent(GlobalEvent, 0, signal);
      var ref;
      ref, rest := CaptureArgs(stack, nargs);
      buf[len - 1] := buf[len - 1].(nargs := nargs, argsRef := ref);
    }

    method ClassArgs(cls: nat, signal: nat, stack: seq<int>, nargs: nat) returns (rest: seq<int>)
      requires Valid() && nargs <= |stack|
      modifies this, buf
      ensures Valid() && (buf == old(buf) || fresh(buf)) && rest == stack[..|stack| - nargs]
      ensures Model() == Enqueue(old(Model()), Emit(Msg(ClassEvent, signal, NO_OBJECT, stack[|stack| - nargs..], cls)))
    {
      PushEvent(ClassEvent, cls, signal);
      var ref;
      ref, rest := CaptureArgs(stack, nargs);
      buf[len - 1] := buf[len - 1].(nargs := nargs, argsRef := ref);
    }

    /** The scan back over the moves at the end, for the newest one of obj. */
    method ScanBack(obj: nat) returns (j: int)
      requires Valid()
      ensures j == FindSame(buf[..len], reg.live, obj)
    {
      j := len - 1;
      while j >= 0
        invariant -1 <= j < len
        invariant FindSame(buf[..len], reg.live, obj) == FindSame(buf[..j + 1], reg.live, obj)
      {
        assert buf[..j + 1][..j] == buf[..j];
        if buf[j].signal != SIG_MOUSE_MOVE { return -1; }
        if HeldObject(reg.live, buf[j].objectRef) == obj { return; }
        j := j - 1;
      }
    }

    /** The coalescing producer: overwrite the pending move of obj, or append one. */
    method QueueMove(obj: nat, x: int, y: int)
      requires Valid()
      modifies this, buf
      ensures Valid() && (buf == old(buf) || fresh(buf))
      ensures Model() == Enqueue(old(Model()), Move(obj, x, y))
    {
      var j := ScanBack(obj);
      if j >= 0 {
        reg := R.Unref(reg, buf[j].argsRef);
        var ref := Ref(R.Args([x, y]));
        buf[j] := buf[j].(argsRef := ref);
      } else {
        AppendMove(obj, x, y);
      }
    }

    method AppendMove(obj: nat, x: int, y: int)
      requires Valid()
      modifies this, buf
      ensures Valid() && (buf == old(buf) || fresh(buf))
      ensures Model() == Append(old(Model()), MoveMsg(obj, x, y))
    {
      PushEvent(ObjectEvent, 0, SIG_MOUSE_MOVE);
      var e := len - 1;
      var ref := Ref(R.Object(obj));
      buf[e] := buf[e].(nargs := 2, objectRef := ref);
      ref := Ref(R.Args([x, y]));
      buf[e] := buf[e].(argsRef := ref);
    }

    /** A producer's caller pushes the arguments and then makes the call. */
    method Produce(op: Op)
      requires Valid() && WellFormed(op)
      modifies this, buf
      ensures Valid() && (buf == old(buf) || fresh(buf))
      ensures Model() == Enqueue(old(Model()), op)
    {
      match op {
        case Move(o, x, y) => QueueMove(o, x, y);
        case Emit(m) =>
          match m.kind {
            case ObjectEvent => var _ := Signal(m.obj, m.signal, m.args, |m.args|);
            case GlobalEvent => var _ := GlobalArgs(m.signal, m.args, |m.args|);
            case ClassEvent => var _ := ClassArgs(m.cls, m.signal, m.args, |m.args|);
          }
      }
    }

    /** A producer call, or another user of the registry at work. */
    method Act(act: EventQueue.Act)
      requires Valid() && (act.Produce? ==> WellFormed(act.op))
      modifies this, buf
      ensures Valid() && (buf == old(buf) || fresh(buf))
      ensures Model() == Perform(old(Model()), act)
    {
      match act {
        case Produce(op) => Produce(op);
        case Hold(v) => var _ := Ref(v);
        case GiveBack(ref) => reg := R.Unref(reg, ref);
      }
    }

    method RunHandler(acts: seq<EventQueue.Act>)
      requires Valid() && forall k | 0 <= k < |acts| && acts[k].Produce? :: WellFormed(acts[k].op)
      modifies this, buf
      ensures Valid() && (buf == old(buf) || fresh(buf))
      ensures Model() == PerformAll(old(Model()), acts)
    {
      for k := 0 to |acts|
        invariant Valid() && (buf == old(buf) || fresh(buf))
        invariant Model() == PerformAll(old(Model()), acts[..k])
      {
        assert acts[..k + 1][..k] == acts[..k];
        Act(acts[k]);
      }
      assert acts[..|acts|] == acts;
    }

    method UnpackArgs(e: Event) returns (args: seq<int>)
      ensures args == Unpack(reg.live, e.argsRef, e.nargs)
    {
      args := [];
      if e.argsRef == R.NOREF { return; }
      var vals := if e.argsRef in reg.live && reg.live[e.argsRef].Args? then reg.live[e.argsRef].vals else [];
      for j := 0 to e.nargs
        invariant args == Unpack(reg.live, e.argsRef, e.nargs)[..j]
      {
        args := args + [if j < |vals| then vals[j] else NIL];
      }
    }

    /** Deliver one slot, run its handler, and release the references of the copy
        taken before the handler ran. */
    method Dispatch(i: nat, ghost count: nat, script: seq<seq<EventQueue.Act>>) returns (delivered: seq<Msg>)
      requires Valid() && CallsWellFormed(script) && i < count <= len
      modifies this, buf
      ensures Valid() && (buf == old(buf) || fresh(buf)) && count <= len
      ensures var r := DrainFrom(Model(), i + 1, count, script);
              DrainFrom(old(Model()), i, count, script) == (r.0, delivered + r.1)
    {
      ghost var s := Model();
      var e := buf[i];
      assert e == s.q[i];
      delivered := [];
      if Dispatchable(e) {
        var args := UnpackArgs(e);
        delivered := [Msg(e.kind, e.signal, HeldObject(reg.live, e.objectRef), args, e.cls)];
        RunHandler(Handler(script, i));
      }
      reg := R.Unref(R.Unref(reg, e.objectRef), e.argsRef);
      assert [] + DrainFrom(Model(), i + 1, count, script).1 == DrainFrom(Model(), i + 1, count, script).1;
    }

    /** Dispatch the events that are pending now. script[i] is what the handler of
        slot i does; it may reallocate buf. */
    method Drain(script: seq<seq<EventQueue.Act>>) returns (delivered: seq<Msg>)
      requires Valid() && CallsWellFormed(script)
      modifies this, buf
      ensures Valid() && (buf == old(buf) || fresh(buf))
      ensures (Model(), delivered) == EventQueue.Drain(old(Model()), script)
    {
      var count := len;
      delivered := [];
      ghost var all := EventQueue.Drain(Model(), script);
      assert [] + all.1 == all.1;
      ghost var rest := all;
      for i := 0 to count
        invariant count <= len && Valid() && (buf == old(buf) || fresh(buf))
        invariant rest == DrainFrom(Model(), i, count, script)
        invariant all.0 == rest.0 && all.1 == delivered + rest.1
      {
        var d := Dispatch(i, count, script);
        ghost var next := DrainFrom(Model(), i + 1, count, script);
        assert delivered + (d + next.1) == delivered + d + next.1;
        delivered, rest := delivered + d, next;
      }
      assert delivered + [] == delivered;
      DropFront(count);
    }

    /** Remove the dispatched events; what handlers queued moves to the front. */
    method DropFront(count: nat)
      requires Valid() && count <= len
      modifies this`len, buf
      ensures Valid() && buf[..len] == old(buf[..len][count..])
    {
      if len > count {
        var left := len - count;
        ghost var tail := buf[..len][count..];
        forall k | 0 <= k < left { buf[k] := buf[count + k]; }
        len := left;
        assert buf[..len] == tail;
      } else {
        len := 0;
      }
    }

    method ReleasePending()
      requires Valid()
      modifies this`reg
      ensures Valid() && reg == ReleaseAll(old(reg), buf[..len])
    {
      for i := 0 to len
        invariant reg == ReleaseAll(old(reg), buf[..i])
      {
        assert buf[..i + 1][..i] == buf[..i];
        reg := R.Unref(R.Unref(reg, buf[i].objectRef), buf[i].argsRef);
      }
    }

    /** Drop the pending events. owner is false after a Lua state swap, when the old
        references name nothing in this registry. */
    method Reset(owner: bool)
      requires Valid()
      modifies this
      ensures Valid() && buf == old(buf)
      ensures Model() == if owner then Take(old(Model()), Dropped) else State([], old(reg))
    {
      if owner {
        ReleasePending();
      }
      len := 0;
    }

    /** Empty the queue and free the buffer. Without a Lua state there is nothing to
        release against. */
    method Wipe(hasState: bool)
      requires Valid()
      modifies this
      ensures Valid() && buf.Length == 0
      ensures Model() == if hasState then Take(old(Model()), Dropped) else State([], old(reg))
    {
      if hasState {
        ReleasePending();
      }
      buf := new Event[0];
      len := 0;
    }
  }
}

/** The decoder as it runs: pushes, inserts and raw stores on the Lua stack. */
module DbusStack {
  import opened LuaValues
  import opened DbusDecode
  import opened Options

  function Size(a: Arg): nat
    decreases a, 1
  {
    match a
    case Plain(_) => 1
    case Undecoded => 1
    case Variant(v) => 1 + Size(v)
    case Struct(fs) => 1 + SizeAll(fs)
    case Entry(k, v) => 1 + Size(k) + Size(v)
    case FixedArray(_, _) => 1
    case DictArray(es) => 1 + SizeAll(es)
    case ListArray(es) => 1 + SizeAll(es)
  }

  function SizeAll(args: seq<Arg>): nat
    decreases args, 0
  {
    if args == [] then 0 else Size(args[0]) + SizeAll(args[1..])
  }

  lemma {:induction false} SizeOfElement(args: seq<Arg>, i: nat)
    requires i < |args|
    ensures Size(args[i]) <= SizeAll(args)
    decreases i
  {
    if i > 0 { SizeOfElement(args[1..], i - 1); }
  }

  lemma SizeOfFew(a: Arg, b: Arg)
    ensures SizeAll([a]) == Size(a) && SizeAll([a, b]) == Size(a) + Size(b)
  {
    assert [a][1..] == [] && [a, b][1..] == [b] && [b][1..] == [];
    assert SizeAll([b]) == Size(b);
  }

  lemma IterOfOne(stack: seq<Value>, a: Arg)
    ensures Iter(stack, [a]) == Item(stack, a)
  {
    assert [a][1..] == [];
  }

  lemma {:induction false} IterOfTwo(stack: seq<Value>, a: Arg, b: Arg)
    ensures Iter(stack, [a, b]) ==
            match Item(stack, a) case Fault => Fault case Done(s, _) =>
            match Item(s, b) case Fault => Fault case Done(t, _) => Done(t, 2)
  {
    assert [a, b][1..] == [b];
    if Item(stack, a).Done? { IterOfOne(Item(stack, a).stack, b); }
  }

  lemma {:induction false} IterSnoc(stack: seq<Value>, args: seq<Arg>, a: Arg)
    ensures Iter(stack, args + [a]) ==
            match Iter(stack, args) case Fault => Fault case Done(s, n) =>
            match Item(s, a) case Fault => Fault case Done(t, _) => Done(t, n + 1)
    decreases |args|
  {
    if args == [] {
      assert args + [a] == [a];
      IterOfOne(stack, a);
    } else {
      assert (args + [a])[1..] == args[1..] + [a];
      if Item(stack, args[0]).Done? { IterSnoc(Item(stack, args[0]).stack, args[1..], a); }
    }
  }

  lemma {:induction false} IterFaultStays(stack: seq<Value>, args: seq<Arg>, i: nat)
    requires i <= |args| && Iter(stack, args[..i]) == Fault
    ensures Iter(stack, args) == Fault
    decreases |args| - i
  {
    if i == |args| {
      assert args[..i] == args;
    } else {
      assert args[..i + 1] == args[..i] + [args[i]];
      IterSnoc(stack, args[..i], args[i]);
      IterFaultStays(stack, args, i + 1);
    }
  }

  /** A stack that ends in a table and i values: replacing the table and dropping n values. */
  lemma AboveTable(base: seq<Value>, t: Value, vs: seq<Value>, t': Value, n: nat)
    requires n <= |vs|
    ensures var s := base + [t] + vs;
            && |s| == |base| + 1 + |vs| && s[|base|] == t
            && s[..|s| - n][|base| := t'] == base + [t'] + vs[..|vs| - n]
            && (n >= 1 ==> s[|s| - 1] == vs[|vs| - 1]) && (n >= 2 ==> s[|s| - 2] == vs[|vs| - 2])
  {
    var s := base + [t] + vs;
    assert s[..|s| - n] == base + [t] + vs[..|vs| - n];
  }

  /** A stack in which a table has taken the values from the i-th on. */
  ghost function Partly(base: seq<Value>, vs: seq<Value>, i: nat): seq<Value>
    requires i <= |vs|
  {
    base + [Table(ArrayFrom(vs, i))] + vs[..i]
  }

  /** And one in which it has taken the pairs from the j-th on. */
  ghost function PartlyPaired(base: seq<Value>, vs: seq<Value>, j: nat): seq<Value>
    requires |vs| % 2 == 0 && j <= |vs| / 2
  {
    base + [DictOf(PairUp(vs)[j..])] + vs[..2 * j]
  }

  lemma StoredValue(base: seq<Value>, vs: seq<Value>, i: nat)
    requires 1 <= i <= |vs|
    ensures var s := Partly(base, vs, i);
            && |s| == |base| + 1 + i && s[|base|] == Table(ArrayFrom(vs, i))
            && s[..|s| - 1][|base| := Table(Store(ArrayFrom(vs, i), Int(i), s[|s| - 1]))] == Partly(base, vs, i - 1)
  {
    ArrayFromBelow(vs, i);
    AboveTable(base, Table(ArrayFrom(vs, i)), vs[..i], Table(ArrayFrom(vs, i - 1)), 1);
    assert vs[..i][..i - 1] == vs[..i - 1];
  }

  lemma StoredPair(base: seq<Value>, vs: seq<Value>, j: nat)
    requires |vs| % 2 == 0 && j < |vs| / 2
    ensures var ps := PairUp(vs); var s := PartlyPaired(base, vs, j + 1);
            && |s| == |base| + 2 * j + 3 && s[|base|] == DictOf(ps[j + 1..]) && s[|s| - 2] == vs[2 * j]
            && s[..|s| - 2][|base| := Table(Store(DictOf(ps[j + 1..]).entries, Key(s[|s| - 2]), s[|s| - 1]))]
               == PartlyPaired(base, vs, j)
  {
    var ps := PairUp(vs);
    DictOfCons(ps[j].0, ps[j].1, ps[j + 1..]);
    assert [(ps[j].0, ps[j].1)] + ps[j + 1..] == ps[j..];
    AboveTable(base, DictOf(ps[j + 1..]), vs[..2 * (j + 1)], DictOf(ps[j..]), 2);
    assert vs[..2 * (j + 1)][..2 * j] == vs[..2 * j];
  }

  lemma EmptyArray(base: seq<Value>, vs: seq<Value>)
    ensures base + [Table(map[])] + vs == Partly(base, vs, |vs|)
  {
    assert ArrayFrom(vs, |vs|) == map[] && vs[..|vs|] == vs;
  }

  lemma FullArray(base: seq<Value>, vs: seq<Value>)
    ensures Partly(base, vs, 0) == base + [ArrayOf(vs)]
  {
    assert base + [ArrayOf(vs)] + [] == base + [ArrayOf(vs)];
  }

  lemma NothingStored(base: seq<Value>, vs: seq<Value>, n: nat)
    requires |vs| == 2 * n
    ensures base + [Table(map[])] + vs == PartlyPaired(base, vs, n)
  {
    assert PairUp(vs)[n..] == [] && vs[..2 * n] == vs;
    EmptyDict();
  }

  lemma AllStored(base: seq<Value>, vs: seq<Value>)
    requires |vs| % 2 == 0
    ensures PartlyPaired(base, vs, 0) == base + [DictOf(PairUp(vs))]
  {
    assert PairUp(vs)[0..] == PairUp(vs);
    assert base + [DictOf(PairUp(vs))] + [] == base + [DictOf(PairUp(vs))];
  }

  lemma EmptyDict()
    ensures DictOf([]) == Table(map[])
  {
    assert Keys([]) == {};
  }

  class LuaState {
    var stack: seq<Value>
    var fault: bool      // a Lua error was raised, or an index named no slot

    /** The state is what the outcome says. */
    ghost predicate Matches(r: Outcome)
      reads this
    {
      match r
      case Fault => fault
      case Done(s, _) => !fault && stack == s
    }

    constructor (s: seq<Value>)
      ensures !fault && stack == s
    {
      stack, fault := s, false;
    }

    method Push(v: Value)
      modifies this`stack
      ensures stack == old(stack) + [v]
    {
      stack := stack + [v];
    }

    /** lua_insert: the top value moves down to idx. */
    method Insert(idx: int)
      requires idx < 0 && !fault
      modifies this
      ensures var s := old(stack);
              if -idx > |s| then fault
              else !fault && stack == s[..|s| + idx] + [s[|s| - 1]] + s[|s| + idx..|s| - 1]
    {
      var n := |stack|;
      if -idx > n {
        fault := true;
      } else {
        stack := stack[..n + idx] + [stack[n - 1]] + stack[n + idx..n - 1];
      }
    }

    /** lua_rawseti: the table at idx takes the top value under i. */
    method RawSetI(idx: int, i: int)
      requires idx < 0 && !fault
      modifies this
      ensures var s := old(stack); var p := |s| + idx;
              if p < 0 || idx == -1 || !s[p].Table? then fault
              else !fault && stack == s[..|s| - 1][p := Table(Store(s[p].entries, Int(i), s[|s| - 1]))]
    {
      var n := |stack|;
      var p := n + idx;
      if p < 0 || idx == -1 || !stack[p].Table? {
        fault := true;
      } else {
        stack := stack[..n - 1][p := Table(Store(stack[p].entries, Int(i), stack[n - 1]))];
      }
    }

    /** lua_rawset: the table at idx takes the top value under the key below it. */
    method RawSet(idx: int)
      requires idx < 0 && !fault
      modifies this
      ensures var s := old(stack); var p := |s| + idx;
              if p < 0 || idx > -3 || !s[p].Table? || s[|s| - 2] == Nil then fault
              else !fault && stack == s[..|s| - 2][p := Table(Store(s[p].entries, Key(s[|s| - 2]), s[|s| - 1]))]
    {
      var n := |stack|;
      var p := n + idx;
      if p < 0 || idx > -3 || !stack[p].Table? || stack[n - 2] == Nil {
        fault := true;
      } else {
        stack := stack[..n - 2][p := Table(Store(stack[p].entries, Key(stack[n - 2]), stack[n - 1]))];
      }
    }

    /** A new table, inserted below the top n values. */
    method TableBelow(n: nat)
      requires !fault
      modifies this
      ensures var s := old(stack);
              if |s| < n then fault
              else !fault && stack == s[..|s| - n] + [Table(map[])] + s[|s| - n..]
    {
      ghost var s := stack;
      Push(Table(map[]));
      var idx: int := -(n as int) - 1;
      Insert(idx);
      if !fault {
        ghost var t := s + [Table(map[])];
        assert t[..|t| + idx] == s[..|s| - n] && t[|t| + idx..|t| - 1] == s[|s| - n..];
      }
    }

    /** Store the top value, the i-th of vs, into the table below the first i values. */
    method StoreValue(i: int, ghost base: seq<Value>, ghost vs: seq<Value>)
      requires !fault && 1 <= i <= |vs|
      requires stack == Partly(base, vs, i)
      modifies this
      ensures !fault && stack == Partly(base, vs, i - 1)
    {
      StoredValue(base, vs, i);
      RawSetI(-i - 1, i);
    }

    /** Take n values off the top into the table below them, the last value first. */
    method StoreValues(n: nat, ghost base: seq<Value>, ghost vs: seq<Value>)
      requires !fault && |vs| == n && stack == base + [Table(map[])] + vs
      modifies this
      ensures !fault && stack == base + [ArrayOf(vs)]
    {
      EmptyArray(base, vs);
      var i := n;
      while i > 0
        invariant 0 <= i <= n && !fault
        invariant stack == Partly(base, vs, i)
      {
        StoreValue(i, base, vs);
        i := i - 1;
      }
      FullArray(base, vs);
    }

    /** Gather the top n values into a table. */
    method CollectTable(n: nat)
      requires !fault
      modifies this
      ensures Matches(Collect(old(stack), n))
    {
      ghost var s := stack;
      TableBelow(n);
      if fault { return; }
      ghost var base, vs := s[..|s| - n], s[|s| - n..];
      StoreValues(n, base, vs);
    }

    /** Store the top pair, the j-th of ps, into the table below the first pairs. */
    method StorePair(idx: int, ghost j: nat, ghost base: seq<Value>, ghost vs: seq<Value>)
      requires !fault && |vs| % 2 == 0 && j < |vs| / 2 && idx == -2 * j - 3
      requires stack == PartlyPaired(base, vs, j + 1)
      modifies this
      ensures fault == (vs[2 * j] == Nil)
      ensures !fault ==> stack == PartlyPaired(base, vs, j)
    {
      StoredPair(base, vs, j);
      RawSet(idx);
    }

    method StorePairs(n: nat, ghost base: seq<Value>, ghost vs: seq<Value>)
      requires !fault && |vs| == 2 * n && stack == base + [Table(map[])] + vs
      modifies this
      ensures fault == NilKey(PairUp(vs))
      ensures !fault ==> stack == base + [DictOf(PairUp(vs))]
    {
      ghost var ps := PairUp(vs);
      NothingStored(base, vs, n);
      var i := 0;
      ghost var j: nat := n;
      while i < n
        invariant 0 <= i <= n && j == n - i && !fault
        invariant stack == PartlyPaired(base, vs, j)
        invariant forall k | j <= k < n :: ps[k].0 != Nil
      {
        StorePair(-(n * 2) - 1 + i * 2, j - 1, base, vs);
        if fault {
          assert ps[j - 1].0 == Nil;
          return;
        }
        i, j := i + 1, j - 1;
      }
      AllStored(base, vs);
    }

    /** Gather the top n pairs into a table, the last pair first. */
    method CollectDict(n: nat)
      requires !fault
      modifies this
      ensures Matches(CollectPairs(old(stack), n))
    {
      ghost var s := stack;
      TableBelow(n * 2);
      if fault { return; }
      ghost var base, vs := s[..|s| - 2 * n], s[|s| - 2 * n..];
      StorePairs(n, base, vs);
    }

    /** The elements of a fixed-size array, stored as they are read. */
    method PushItems(items: seq<Basic>)
      requires !fault
      modifies this
      ensures !fault && stack == old(stack) + [ArrayOf(DenoteItems(items))]
    {
      ghost var s := stack;
      var vs := DenoteItems(items);
      Push(Table(map[]));
      assert ArrayFrom(vs[..0], 0) == map[];
      for i := 0 to |items|
        invariant !fault && stack == s + [ArrayOf(vs[..i])]
      {
        ArrayOfSnoc(vs[..i], vs[i]);
        assert vs[..i + 1] == vs[..i] + [vs[i]];
        Push(DenoteBasic(items[i]));
        RawSetI(-2, i + 1);
        assert stack == s + [ArrayOf(vs[..i + 1])];
      }
      assert vs[..|items|] == vs;
    }

    /** a_dbus_message_iter */
    method MessageIter(args: seq<Arg>) returns (nargs: nat)
      requires !fault
      modifies this
      ensures Matches(Iter(old(stack), args)) && (!fault ==> nargs == |args|)
      decreases SizeAll(args), 1
    {
      nargs := 0;
      ghost var s := stack;
      for i := 0 to |args|
        invariant nargs == i && !fault && Iter(s, args[..i]) == Done(stack, i)
      {
        SizeOfElement(args, i);
        assert args[..i + 1] == args[..i] + [args[i]];
        IterSnoc(s, args[..i], args[i]);
        MessageItem(args[i]);
        if fault {
          IterFaultStays(s, args, i + 1);
          return;
        }
        nargs := nargs + 1;
      }
      assert args[..|args|] == args;
    }

    /** The switch on the argument's type. */
    method MessageItem(a: Arg)
      requires !fault
      modifies this
      ensures Matches(Item(old(stack), a))
      decreases Size(a), 0
    {
      match a {
        case Plain(b) => Push(DenoteBasic(b));
        case Undecoded => Push(Nil);
        case Variant(v) =>
          IterOfOne(stack, v);
          SizeOfFew(v, v);
          var _ := MessageIter([v]);
        case Entry(k, v) =>
          IterOfTwo(stack, k, v);
          SizeOfFew(k, v);
          var _ := MessageIter([k, v]);
        case Struct(fs) =>
          var n := MessageIter(fs);
          if !fault { CollectTable(n); }
        case ListArray(es) =>
          var n := MessageIter(es);
          if !fault { CollectTable(n); }
        case DictArray(es) =>
          var n := MessageIter(es);
          if !fault { CollectDict(n); }
        case FixedArray(kind, items) =>
          match kind {
            case FdItems =>
            case ByteItems => Push(Str(Octets(items)));
            case _ => PushItems(items);
          }
      }
    }

    /** lua_remove */
    method Remove(idx: int)
      requires idx < 0 <= |stack| + idx
      modifies this`stack
      ensures var s := old(stack); stack == s[..|s| + idx] + s[|s| + idx + 1..]
    {
      var p := |stack| + idx;
      stack := stack[..p] + stack[p + 1..];
    }

    /** Both values of a pair leave the bottom of the replies, each by an index relative
        to a top that moves. */
    method RemovePair(i: int, ghost base: seq<Value>, ghost replies: seq<Value>)
      requires i <= -2 && |replies| == -i && stack == base + replies
      modifies this`stack
      ensures stack == base + replies[2..]
    {
      Remove(i);
      assert stack == base + replies[1..];
      Remove(i + 1);
    }

    /** The reply: a handler left -n values, type names and values in turn. Each pair is
        converted and taken off from the bottom. */
    method Reply(n: int, convert: (Value, Value) -> Option<Arg>) returns (ok: bool, out: seq<Arg>)
      requires n <= 0 <= |stack| + n
      modifies this`stack
      ensures var s := old(stack); var r := s[|s| + n..];
              && (ok <==> |r| % 2 == 0 && forall k | 0 <= k < |r| / 2 :: convert(r[2 * k], r[2 * k + 1]).Some?)
              && (ok ==> stack == s[..|s| + n] && |out| == |r| / 2
                         && forall k | 0 <= k < |out| :: convert(r[2 * k], r[2 * k + 1]) == Some(out[k]))
              && (!ok && |r| % 2 == 1 ==> stack == s && out == [])
              && (!ok && |r| % 2 == 0 ==>
                    && |out| < |r| / 2 && convert(r[2 * |out|], r[2 * |out| + 1]).None?
                    && stack == s[..|s| + n] + r[2 * |out|..]
                    && forall k | 0 <= k < |out| :: convert(r[2 * k], r[2 * k + 1]) == Some(out[k]))
    {
      ghost var s := stack;
      ghost var base, r := s[..|s| + n], s[|s| + n..];
      assert s == base + r && r[0..] == r;
      ok, out := false, [];
      if -n % 2 != 0 { return; }
      var i := n;
      ghost var k: nat := 0;
      while i < 0
        invariant i == n + 2 * k <= 0 && |out| == k
        invariant stack == base + r[2 * k..]
        invariant forall j | 0 <= j < k :: convert(r[2 * j], r[2 * j + 1]) == Some(out[j])
      {
        assert stack[|stack| + i] == r[2 * k] && stack[|stack| + i + 1] == r[2 * k + 1];
        var converted := convert(stack[|stack| + i], stack[|stack| + i + 1]);
        if converted.None? { return; }
        out := out + [converted.value];
        RemovePair(i, base, r[2 * k..]);
        assert r[2 * k..][2..] == r[2 * (k + 1)..];
        i, k := i + 2, k + 1;
      }
      assert r[2 * k..] == [];
      ok := true;
    }
  }
}
